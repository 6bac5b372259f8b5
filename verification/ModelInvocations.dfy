/** The store that owns model invocations, and the workers that go through it to call
    a provider. */
module ModelInvocations {
  import opened Options

  datatype Turn = Turn(payload: string)

  /** The request stands for its fingerprint: requests with one fingerprint are equal. */
  datatype Envelope = Envelope(id: string, request: string)

  datatype Status = Running | Completed | Failed

  datatype Record = Record(
    envelope: Envelope, status: Status, claimToken: string, claimExpiresAt: Option<real>,
    result: Option<Turn>, failureType: string, failureMessage: string, updatedAt: real)

  type Records = map<string, Record>

  datatype Claim =
    | Acquired(token: string)
    | Replay(result: Turn)
    | FailedBefore(failureType: string, failureMessage: string)
    | InProgress
    | Uncertain
    | ClaimConflict

  datatype Settlement = Complete(result: Turn) | Fail(failureType: string, failureMessage: string)

  datatype Settled = Recorded(record: Record) | SettleConflict

  const MESSAGE_LIMIT := 500

  function Cut(text: string): string {
    if |text| <= MESSAGE_LIMIT then text else text[..MESSAGE_LIMIT]
  }

  function Expired(r: Record, now: real): bool {
    r.claimExpiresAt.Some? && r.claimExpiresAt.value <= now
  }

  // ---------------------------------------------------------------- the operations on records

  function ClaimOutcome(records: Records, e: Envelope, now: real, token: string): Claim {
    if e.id !in records then Acquired(token)
    else
      var r := records[e.id];
      if r.envelope.request != e.request then ClaimConflict
      else if r.status == Completed && r.result.Some? then Replay(r.result.value)
      else if r.status == Failed then FailedBefore(r.failureType, r.failureMessage)
      else if Expired(r, now) then Uncertain
      else InProgress
  }

  function AfterClaim(records: Records, e: Envelope, leaseSeconds: real, now: real, token: string): Records {
    if e.id in records then records
    else
      var lease := if leaseSeconds > 1.0 then leaseSeconds else 1.0;
      records[e.id := Record(e, Running, token, Some(now + lease), None, "", "", now)]
  }

  predicate SameResult(r: Record, s: Settlement) {
    match s
    case Complete(result) => r.status == Completed && r.result == Some(result)
    case Fail(_, _) => r.status == Failed
  }

  function SettledRecord(r: Record, s: Settlement, now: real): Record {
    match s
    case Complete(result) =>
      r.(status := Completed, claimToken := "", claimExpiresAt := None, result := Some(result),
         failureType := "", failureMessage := "", updatedAt := now)
    case Fail(failureType, failureMessage) =>
      r.(status := Failed, claimToken := "", claimExpiresAt := None, result := None,
         failureType := failureType, failureMessage := Cut(failureMessage), updatedAt := now)
  }

  function SettleOutcome(records: Records, id: string, token: string, s: Settlement, now: real): Settled {
    if id !in records then SettleConflict
    else
      var r := records[id];
      if r.status != Running then (if SameResult(r, s) then Recorded(r) else SettleConflict)
      else if token == "" || token != r.claimToken then SettleConflict
      else Recorded(SettledRecord(r, s, now))
  }

  function AfterSettle(records: Records, id: string, token: string, s: Settlement, now: real): Records {
    match SettleOutcome(records, id, token, s, now)
    case SettleConflict => records
    case Recorded(record) => records[id := record]
  }

  // ---------------------------------------------------------------- the store

  class InvocationStore {
    var records: Records

    constructor ()
      ensures records == map[]
    {
      records := map[];
    }

    method ClaimInvocation(e: Envelope, leaseSeconds: real, now: real, token: string) returns (claim: Claim)
      modifies this
      ensures claim == ClaimOutcome(old(records), e, now, token)
      ensures records == AfterClaim(old(records), e, leaseSeconds, now, token)
    {
      if e.id in records {
        var record := records[e.id];
        if record.envelope.request != e.request {
          return ClaimConflict;
        }
        if record.status == Completed && record.result.Some? {
          return Replay(record.result.value);
        }
        if record.status == Failed {
          return FailedBefore(record.failureType, record.failureMessage);
        }
        if record.claimExpiresAt.None? || record.claimExpiresAt.value > now {
          return InProgress;
        }
        return Uncertain;
      }
      var lease := if leaseSeconds > 1.0 then leaseSeconds else 1.0;
      records := records[e.id := Record(e, Running, token, Some(now + lease), None, "", "", now)];
      claim := Acquired(token);
    }

    method Settle(id: string, token: string, s: Settlement, now: real) returns (settled: Settled)
      modifies this
      ensures settled == SettleOutcome(old(records), id, token, s, now)
      ensures records == AfterSettle(old(records), id, token, s, now)
    {
      if id !in records {
        return SettleConflict;
      }
      var record := records[id];
      if record.status == Completed || record.status == Failed {
        if SameResult(record, s) {
          assert records == records[id := record];
          return Recorded(record);
        }
        return SettleConflict;
      }
      if token == "" || token != record.claimToken {
        return SettleConflict;
      }
      var next := SettledRecord(record, s, now);
      records := records[id := next];
      settled := Recorded(next);
    }
  }

  // ---------------------------------------------------------------- what no operation changes

  datatype Operation =
    | DoClaim(envelope: Envelope, leaseSeconds: real, now: real, token: string)
    | DoSettle(id: string, token: string, settlement: Settlement, now: real)

  function Apply(records: Records, op: Operation): Records {
    match op
    case DoClaim(e, leaseSeconds, now, token) => AfterClaim(records, e, leaseSeconds, now, token)
    case DoSettle(id, token, s, now) => AfterSettle(records, id, token, s, now)
  }

  function ApplyAll(records: Records, ops: seq<Operation>): Records
    decreases |ops|
  {
    if ops == [] then records else Apply(ApplyAll(records, ops[..|ops| - 1]), ops[|ops| - 1])
  }

  /** A completed record holds its result. */
  ghost predicate Sound(records: Records) {
    forall id :: id in records ==>
      && records[id].envelope.id == id
      && (records[id].status == Completed ==> records[id].result.Some?)
  }

  lemma ApplyKeepsSound(records: Records, op: Operation)
    requires Sound(records)
    ensures Sound(Apply(records, op))
  {
  }

  lemma {:induction false} ApplyAllKeepsSound(records: Records, ops: seq<Operation>)
    requires Sound(records)
    ensures Sound(ApplyAll(records, ops))
  {
    hide Sound, Apply;
    if ops != [] {
      ApplyAllKeepsSound(records, ops[..|ops| - 1]);
      ApplyKeepsSound(ApplyAll(records, ops[..|ops| - 1]), ops[|ops| - 1]);
    }
  }

  /** A record, once there, keeps its request; once settled, it never changes. */
  ghost predicate Persists(before: Records, after: Records) {
    forall id :: id in before ==>
      && id in after && after[id].envelope == before[id].envelope
      && (before[id].status != Running ==> after[id] == before[id])
  }

  lemma ApplyPersists(records: Records, op: Operation)
    ensures Persists(records, Apply(records, op))
  {
  }

  lemma {:induction false} ApplyAllPersists(records: Records, ops: seq<Operation>)
    ensures Persists(records, ApplyAll(records, ops))
  {
    hide Apply;
    if ops != [] {
      ApplyAllPersists(records, ops[..|ops| - 1]);
      ApplyPersists(ApplyAll(records, ops[..|ops| - 1]), ops[|ops| - 1]);
    }
  }

  /** Whatever a store has been through since it was empty: after the first claim of an
      invocation no later claim acquires it, whoever makes it, whenever, and whatever is
      settled in between; and once it is completed, claims of the same request replay
      exactly the result that was recorded. */
  lemma AcquiredOnce(earlier: seq<Operation>, first: Envelope, ops: seq<Operation>, again: Envelope, leaseSeconds: real,
      now: real, later: real, token: string, other: string)
    requires again.id == first.id
    ensures
      var claimed := AfterClaim(ApplyAll(map[], earlier), first, leaseSeconds, now, token);
      var outcome := ClaimOutcome(ApplyAll(claimed, ops), again, later, other);
      && !outcome.Acquired?
      && (claimed[first.id].status == Completed ==>
            && claimed[first.id].result.Some?
            && outcome == if again.request == claimed[first.id].envelope.request
                          then Replay(claimed[first.id].result.value) else ClaimConflict)
  {
    ApplyAllKeepsSound(map[], earlier);
    AcquiredOnceFrom(ApplyAll(map[], earlier), first, ops, again, leaseSeconds, now, later, token, other);
  }

  lemma AcquiredOnceFrom(records: Records, first: Envelope, ops: seq<Operation>, again: Envelope, leaseSeconds: real,
      now: real, later: real, token: string, other: string)
    requires Sound(records) && again.id == first.id
    ensures
      var claimed := AfterClaim(records, first, leaseSeconds, now, token);
      var outcome := ClaimOutcome(ApplyAll(claimed, ops), again, later, other);
      && !outcome.Acquired?
      && (claimed[first.id].status == Completed ==>
            && claimed[first.id].result.Some?
            && outcome == if again.request == claimed[first.id].envelope.request
                          then Replay(claimed[first.id].result.value) else ClaimConflict)
  {
    var claimed := AfterClaim(records, first, leaseSeconds, now, token);
    assert Sound(claimed) by {
      ApplyKeepsSound(records, DoClaim(first, leaseSeconds, now, token));
    }
    ApplyAllPersists(claimed, ops);
  }

  // ---------------------------------------------------------------- workers

  /** Where a worker is in executing one attempt. A worker that crashes stays where it is. */
  datatype Phase =
    | NotStarted
    | Calling(token: string)
    | Answered(token: string, turn: Turn)
    | Failing(token: string)
    | Finished(turn: Turn)
    | Raised

  datatype Worker = Worker(envelope: Envelope, phase: Phase)

  /** `acquired` notes which worker acquired an invocation, `calls` every provider call,
      and `answers` what the provider returned. */
  datatype System = System(
    records: Records, workers: seq<Worker>,
    acquired: map<string, nat>, calls: seq<string>, answers: map<string, Turn>)

  /** The inputs of a step: the clock and token of the store, what the provider does,
      whether the turn passes validation within the deadline, and the error if not. */
  datatype Input = Input(now: real, leaseSeconds: real, token: string, reply: Option<Turn>, accepted: bool,
    failureType: string, failureMessage: string)

  function Move(sys: System, w: nat, phase: Phase): System
    requires w < |sys.workers|
  {
    sys.(workers := sys.workers[w := sys.workers[w].(phase := phase)])
  }

  function ClaimStep(sys: System, w: nat, i: Input): System
    requires w < |sys.workers|
  {
    var e := sys.workers[w].envelope;
    var outcome := ClaimOutcome(sys.records, e, i.now, i.token);
    var claimed := sys.(records := AfterClaim(sys.records, e, i.leaseSeconds, i.now, i.token));
    match outcome
    case Acquired(token) => Move(claimed.(acquired := sys.acquired[e.id := w]), w, Calling(token))
    case Replay(result) => Move(claimed, w, Answered("", result))
    case _ => Move(claimed, w, Raised)
  }

  function CallStep(sys: System, w: nat, i: Input, token: string): System
    requires w < |sys.workers|
  {
    var id := sys.workers[w].envelope.id;
    var called := sys.(calls := sys.calls + [id]);
    if i.reply.Some? then
      Move(called.(answers := sys.answers[id := i.reply.value]), w, Answered(token, i.reply.value))
    else Move(called, w, Failing(token))
  }

  function AnswerStep(sys: System, w: nat, i: Input, token: string, turn: Turn): System
    requires w < |sys.workers|
  {
    if !i.accepted then Move(sys, w, if token == "" then Raised else Failing(token))
    else if token == "" then Move(sys, w, Finished(turn))
    else
      var id := sys.workers[w].envelope.id;
      var outcome := SettleOutcome(sys.records, id, token, Complete(turn), i.now);
      Move(sys.(records := AfterSettle(sys.records, id, token, Complete(turn), i.now)), w,
           if outcome.Recorded? then Finished(turn) else Failing(token))
  }

  function FailStep(sys: System, w: nat, i: Input, token: string): System
    requires w < |sys.workers|
  {
    var id := sys.workers[w].envelope.id;
    Move(sys.(records := AfterSettle(sys.records, id, token, Fail(i.failureType, i.failureMessage), i.now)), w, Raised)
  }

  function Step(sys: System, w: nat, i: Input): System
    requires w < |sys.workers|
    ensures |Step(sys, w, i).workers| == |sys.workers|
  {
    match sys.workers[w].phase
    case NotStarted => ClaimStep(sys, w, i)
    case Calling(token) => CallStep(sys, w, i, token)
    case Answered(token, turn) => AnswerStep(sys, w, i, token, turn)
    case Failing(token) => FailStep(sys, w, i, token)
    case Finished(_) => sys
    case Raised => sys
  }

  /** Any workers, in any order. */
  function RunAll(sys: System, steps: seq<(nat, Input)>): System
    requires forall k :: 0 <= k < |steps| ==> steps[k].0 < |sys.workers|
    ensures |RunAll(sys, steps).workers| == |sys.workers|
    decreases |steps|
  {
    if steps == [] then sys
    else
      var last := steps[|steps| - 1];
      Step(RunAll(sys, steps[..|steps| - 1]), last.0, last.1)
  }

  // ---------------------------------------------------------------- safety of all workers together

  function Count(calls: seq<string>, id: string): nat {
    if calls == [] then 0
    else Count(calls[..|calls| - 1], id) + (if calls[|calls| - 1] == id then 1 else 0)
  }

  /** The worker works under a claim it acquired. */
  predicate Holds(w: Worker) {
    w.phase.Calling? || w.phase.Failing? || (w.phase.Answered? && w.phase.token != "")
  }

  ghost predicate CompletedWith(sys: System, id: string, turn: Turn) {
    id in sys.records && sys.records[id].status == Completed && sys.records[id].result == Some(turn)
  }

  /** What is so of worker k. */
  ghost predicate WorkerInv(sys: System, k: nat)
    requires k < |sys.workers|
  {
    var w, id := sys.workers[k], sys.workers[k].envelope.id;
    && (Holds(w) ==>
          && id in sys.acquired && sys.acquired[id] == k && w.phase.token != ""
          && id in sys.records && sys.records[id].status == Running && sys.records[id].claimToken == w.phase.token)
    && (w.phase.Calling? ==> Count(sys.calls, id) == 0)
    && (w.phase.Answered? && w.phase.token != "" ==> id in sys.answers && sys.answers[id] == w.phase.turn)
    && (w.phase.Answered? && w.phase.token == "" ==> CompletedWith(sys, id, w.phase.turn))
    && (w.phase.Finished? ==> CompletedWith(sys, id, w.phase.turn))
    && (w.phase.NotStarted? ==> id !in sys.acquired || sys.acquired[id] != k)
  }

  /** What is so of an invocation: it was acquired if it has a record, called at most once,
      and if completed, then with what the provider answered. */
  ghost predicate InvocationInv(sys: System, id: string) {
    && (id in sys.records <==> id in sys.acquired)
    && Count(sys.calls, id) <= (if id in sys.acquired then 1 else 0)
    && (id in sys.records ==>
          && sys.records[id].envelope.id == id
          && (sys.records[id].status == Completed ==>
                sys.records[id].result.Some? && id in sys.answers && sys.records[id].result.value == sys.answers[id]))
  }

  ghost predicate Inv(sys: System) {
    (forall k :: 0 <= k < |sys.workers| ==> WorkerInv(sys, k)) && (forall id: string :: InvocationInv(sys, id))
  }

  ghost predicate Initial(sys: System) {
    && sys.records == map[] && sys.acquired == map[] && sys.calls == [] && sys.answers == map[]
    && forall k :: 0 <= k < |sys.workers| ==> sys.workers[k].phase == NotStarted
  }

  lemma CountSnoc(calls: seq<string>, id: string, other: string)
    ensures Count(calls + [id], other) == Count(calls, other) + (if id == other then 1 else 0)
  {
    assert (calls + [id])[..|calls|] == calls;
  }

  lemma ClaimKeepsWorker(sys: System, w: nat, i: Input, k: nat)
    requires Inv(sys) && w < |sys.workers| && sys.workers[w].phase == NotStarted && i.token != "" && k < |sys.workers|
    ensures WorkerInv(ClaimStep(sys, w, i), k)
  {
    assert WorkerInv(sys, k) && InvocationInv(sys, sys.workers[w].envelope.id);
    assert InvocationInv(sys, sys.workers[k].envelope.id);
    hide Inv;
  }

  lemma ClaimKeepsInvocation(sys: System, w: nat, i: Input, id: string)
    requires Inv(sys) && w < |sys.workers| && sys.workers[w].phase == NotStarted && i.token != ""
    ensures InvocationInv(ClaimStep(sys, w, i), id)
  {
    assert InvocationInv(sys, id) && InvocationInv(sys, sys.workers[w].envelope.id);
    hide Inv;
  }

  lemma ClaimKeepsInv(sys: System, w: nat, i: Input)
    requires Inv(sys) && w < |sys.workers| && sys.workers[w].phase == NotStarted && i.token != ""
    ensures Inv(ClaimStep(sys, w, i))
  {
    assert |ClaimStep(sys, w, i).workers| == |sys.workers|;
    hide WorkerInv, InvocationInv, ClaimStep;
    forall k | 0 <= k < |sys.workers|
      ensures WorkerInv(ClaimStep(sys, w, i), k)
    {
      ClaimKeepsWorker(sys, w, i, k);
    }
    forall id: string
      ensures InvocationInv(ClaimStep(sys, w, i), id)
    {
      ClaimKeepsInvocation(sys, w, i, id);
    }
  }

  lemma CallKeepsWorker(sys: System, w: nat, i: Input, token: string, k: nat)
    requires Inv(sys) && w < |sys.workers| && sys.workers[w].phase == Calling(token) && k < |sys.workers|
    ensures WorkerInv(CallStep(sys, w, i, token), k)
  {
    assert WorkerInv(sys, w) && WorkerInv(sys, k) && InvocationInv(sys, sys.workers[w].envelope.id);
    hide Inv;
    CountSnoc(sys.calls, sys.workers[w].envelope.id, sys.workers[k].envelope.id);
  }

  lemma CallKeepsInvocation(sys: System, w: nat, i: Input, token: string, id: string)
    requires Inv(sys) && w < |sys.workers| && sys.workers[w].phase == Calling(token)
    ensures InvocationInv(CallStep(sys, w, i, token), id)
  {
    assert WorkerInv(sys, w) && InvocationInv(sys, id) && InvocationInv(sys, sys.workers[w].envelope.id);
    hide Inv;
    CountSnoc(sys.calls, sys.workers[w].envelope.id, id);
  }

  lemma CallKeepsInv(sys: System, w: nat, i: Input, token: string)
    requires Inv(sys) && w < |sys.workers| && sys.workers[w].phase == Calling(token)
    ensures Inv(CallStep(sys, w, i, token))
  {
    assert |CallStep(sys, w, i, token).workers| == |sys.workers|;
    hide WorkerInv, InvocationInv, CallStep;
    forall k | 0 <= k < |sys.workers|
      ensures WorkerInv(CallStep(sys, w, i, token), k)
    {
      CallKeepsWorker(sys, w, i, token, k);
    }
    forall id: string
      ensures InvocationInv(CallStep(sys, w, i, token), id)
    {
      CallKeepsInvocation(sys, w, i, token, id);
    }
  }

  lemma SettleKeepsInv(sys: System, w: nat, settlement: Settlement, now: real, phase: Phase)
    requires Inv(sys) && w < |sys.workers| && Holds(sys.workers[w])
    requires phase == Raised || (phase.Finished? && settlement == Complete(phase.turn))
    requires settlement.Complete? ==>
      phase.Finished? && sys.workers[w].phase == Answered(sys.workers[w].phase.token, settlement.result)
    ensures
      var id := sys.workers[w].envelope.id;
      && SettleOutcome(sys.records, id, sys.workers[w].phase.token, settlement, now).Recorded?
      && Inv(Move(sys.(records := AfterSettle(sys.records, id, sys.workers[w].phase.token, settlement, now)), w, phase))
  {
    var id := sys.workers[w].envelope.id;
    assert WorkerInv(sys, w) && InvocationInv(sys, id);
    var next := Move(sys.(records := AfterSettle(sys.records, id, sys.workers[w].phase.token, settlement, now)), w, phase);
    forall k | 0 <= k < |next.workers|
      ensures WorkerInv(next, k)
    {
      assert WorkerInv(sys, k);
    }
    forall other: string
      ensures InvocationInv(next, other)
    {
      assert InvocationInv(sys, other);
    }
  }

  lemma MoveKeepsInv(sys: System, w: nat, phase: Phase)
    requires Inv(sys) && w < |sys.workers|
    requires phase == Raised
      || (phase.Failing? && Holds(sys.workers[w]) && phase.token == sys.workers[w].phase.token)
      || (phase.Finished? && sys.workers[w].phase == Answered("", phase.turn))
    ensures Inv(Move(sys, w, phase))
  {
    var next := Move(sys, w, phase);
    assert WorkerInv(sys, w);
    forall k | 0 <= k < |next.workers|
      ensures WorkerInv(next, k)
    {
      assert WorkerInv(sys, k);
    }
    forall other: string
      ensures InvocationInv(next, other)
    {
      assert InvocationInv(sys, other);
    }
  }

  lemma StepKeepsInv(sys: System, w: nat, i: Input)
    requires Inv(sys) && w < |sys.workers| && i.token != ""
    ensures Inv(Step(sys, w, i))
  {
    assert WorkerInv(sys, w);
    hide Inv, InvocationInv, ClaimStep, CallStep, AfterSettle;
    match sys.workers[w].phase
    case NotStarted => ClaimKeepsInv(sys, w, i);
    case Calling(token) => CallKeepsInv(sys, w, i, token);
    case Answered(token, turn) =>
      if !i.accepted || token == "" {
        MoveKeepsInv(sys, w, if i.accepted then Finished(turn) else if token == "" then Raised else Failing(token));
      } else {
        SettleKeepsInv(sys, w, Complete(turn), i.now, Finished(turn));
      }
    case Failing(token) => SettleKeepsInv(sys, w, Fail(i.failureType, i.failureMessage), i.now, Raised);
    case Finished(_) =>
    case Raised =>
  }

  lemma {:induction false} RunKeepsInv(sys: System, steps: seq<(nat, Input)>)
    requires Inv(sys)
    requires forall k :: 0 <= k < |steps| ==> steps[k].0 < |sys.workers| && steps[k].1.token != ""
    ensures Inv(RunAll(sys, steps))
  {
    hide Inv, Step;
    if steps != [] {
      var last := steps[|steps| - 1];
      RunKeepsInv(sys, steps[..|steps| - 1]);
      StepKeepsInv(RunAll(sys, steps[..|steps| - 1]), last.0, last.1);
    }
  }

  /** However many workers attempt an invocation, in whatever order, and wherever any of
      them crash: the provider is called for it at most once; what is recorded as its
      result is what the provider answered; and all workers that finish it return that. */
  lemma ProviderIsCalledAtMostOnce(sys: System, steps: seq<(nat, Input)>, id: string)
    requires Initial(sys)
    requires forall k :: 0 <= k < |steps| ==> steps[k].0 < |sys.workers| && steps[k].1.token != ""
    ensures
      var after := RunAll(sys, steps);
      && Count(after.calls, id) <= 1
      && (id in after.records && after.records[id].status == Completed ==>
            id in after.answers && after.records[id].result == Some(after.answers[id]))
      && (forall k :: 0 <= k < |after.workers| && after.workers[k].envelope.id == id && after.workers[k].phase.Finished? ==>
            id in after.answers && after.workers[k].phase.turn == after.answers[id])
  {
    InitialIsInv(sys);
    RunKeepsInv(sys, steps);
    var after := RunAll(sys, steps);
    hide RunAll;
    assert InvocationInv(after, id);
    forall k | 0 <= k < |after.workers| && after.workers[k].envelope.id == id && after.workers[k].phase.Finished?
      ensures id in after.answers && after.workers[k].phase.turn == after.answers[id]
    {
      assert WorkerInv(after, k);
    }
  }

  lemma InitialIsInv(sys: System)
    requires Initial(sys)
    ensures Inv(sys)
  {
  }

  /** An invocation whose worker is gone is never called again: once its claim has expired
      without a result, every later worker that asks for it is turned away. */
  lemma ExpiredIsNotRetried(sys: System, w: nat, i: Input)
    requires Inv(sys) && w < |sys.workers| && sys.workers[w].phase == NotStarted
    requires
      var id := sys.workers[w].envelope.id;
      id in sys.records && sys.records[id].status == Running && Expired(sys.records[id], i.now)
    ensures Step(sys, w, i).workers[w].phase == Raised
    ensures Step(sys, w, i).calls == sys.calls && Step(sys, w, i).records == sys.records
  {
    hide Inv;
  }

  /** A worker that holds a claim is never refused when it settles. */
  lemma HolderSettles(sys: System, w: nat, settlement: Settlement, now: real)
    requires Inv(sys) && w < |sys.workers| && Holds(sys.workers[w])
    ensures SettleOutcome(sys.records, sys.workers[w].envelope.id, sys.workers[w].phase.token, settlement, now).Recorded?
  {
    assert WorkerInv(sys, w);
    hide Inv;
  }
}
