/** What the store of model invocations says, told from the operations it has been through
    since it was empty; and how a worker gets from its claim to its turn. */
module InvocationHistory {
  import opened Options
  import opened ModelInvocations

  // ---------------------------------------------------------------- the first claim and its settlement

  /** The position of the first claim of an invocation; past the end when there is none. */
  function FirstClaim(ops: seq<Operation>, id: string): (c: nat)
    ensures c <= |ops|
    ensures c < |ops| ==> ops[c].DoClaim? && ops[c].envelope.id == id
    ensures forall i :: 0 <= i < c ==> !(ops[i].DoClaim? && ops[i].envelope.id == id)
  {
    if ops == [] then 0
    else
      var n := |ops| - 1;
      var earlier := FirstClaim(ops[..n], id);
      if earlier < n then earlier else if ops[n].DoClaim? && ops[n].envelope.id == id then n else n + 1
  }

  predicate Settles(op: Operation, id: string, token: string) {
    op.DoSettle? && op.id == id && token != "" && op.token == token
  }

  /** The position of the first settlement after it under the claim's own token. */
  function FirstSettlement(ops: seq<Operation>, id: string, token: string, from: nat): (s: nat)
    requires from < |ops|
    ensures from < s <= |ops|
    ensures s < |ops| ==> Settles(ops[s], id, token)
    ensures forall i :: from < i < s ==> !Settles(ops[i], id, token)
  {
    var n := |ops| - 1;
    if n == from then n + 1
    else
      var earlier := FirstSettlement(ops[..n], id, token, from);
      if earlier < n then earlier else if Settles(ops[n], id, token) then n else n + 1
  }

  function AtLeastOne(seconds: real): real {
    if seconds >= 1.0 then seconds else 1.0
  }

  /** What an invocation's record is after its first claim at `c` and the settlement at `s`, if
      there is one. */
  function RecordOf(ops: seq<Operation>, c: nat, s: nat): Record
    requires c < s <= |ops| && ops[c].DoClaim? && (s < |ops| ==> ops[s].DoSettle?)
  {
    var claim := ops[c];
    if s == |ops| then
      Record(claim.envelope, Running, claim.token, Some(claim.now + AtLeastOne(claim.leaseSeconds)), None, "", "", claim.now)
    else
      match ops[s].settlement
      case Complete(result) => Record(claim.envelope, Completed, "", None, Some(result), "", "", ops[s].now)
      case Fail(failureType, message) =>
        Record(claim.envelope, Failed, "", None, None, failureType, if |message| <= 500 then message else message[..500], ops[s].now)
  }

  /** An invocation has a record from its first claim on, with that claim's request; the first
      settlement under the claim's token settles it, and nothing else ever changes it. */
  lemma {:induction false} RecordsFollowHistory(ops: seq<Operation>, id: string)
    ensures
      var c, records := FirstClaim(ops, id), ApplyAll(map[], ops);
      if c == |ops| then id !in records
      else id in records && records[id] == RecordOf(ops, c, FirstSettlement(ops, id, ops[c].token, c))
    decreases |ops|
  {
    if ops != [] {
      var n := |ops| - 1;
      var front, c := ops[..n], FirstClaim(ops[..n], id);
      RecordsFollowHistory(front, id);
      if c < n {
        FirstSettlementAgain(ops, id, ops[c].token, c);
        hide FirstSettlement;
        RecordStays(front, ops[n], id, c);
        assert ops == front + [ops[n]];
      } else if ops[n].DoClaim? && ops[n].envelope.id == id {
        FirstRecord(ApplyAll(map[], front), ops[n]);
        hide Apply;
      }
    }
  }

  lemma FirstSettlementAgain(ops: seq<Operation>, id: string, token: string, c: nat)
    requires ops != [] && c < |ops| - 1
    ensures FirstSettlement(ops, id, token, c) == FirstAgain(ops[..|ops| - 1], ops[|ops| - 1], id, token, c)
  {
  }

  function FirstAgain(front: seq<Operation>, op: Operation, id: string, token: string, c: nat): nat
    requires c < |front|
  {
    var earlier := FirstSettlement(front, id, token, c);
    if earlier < |front| then earlier else if Settles(op, id, token) then |front| else |front| + 1
  }

  lemma FirstRecord(records: Records, claim: Operation)
    requires claim.DoClaim? && claim.envelope.id !in records
    ensures Apply(records, claim)
         == records[claim.envelope.id := Record(claim.envelope, Running, claim.token,
                                                Some(claim.now + AtLeastOne(claim.leaseSeconds)), None, "", "", claim.now)]
  {
  }

  /** One more operation after the first claim. */
  lemma RecordStays(front: seq<Operation>, op: Operation, id: string, c: nat)
    requires c < |front| && front[c].DoClaim? && front[c].envelope.id == id
    requires
      var records := ApplyAll(map[], front);
      id in records && records[id] == RecordOf(front, c, FirstSettlement(front, id, front[c].token, c))
    ensures
      var records := Apply(ApplyAll(map[], front), op);
      && id in records
      && records[id] == RecordOf(front + [op], c, FirstAgain(front, op, id, front[c].token, c))
  {
    var s := FirstSettlement(front, id, front[c].token, c);
    var all := front + [op];
    assert all[c] == front[c] && all[|front|] == op && (s < |front| ==> all[s] == front[s]);
    hide ApplyAll, FirstSettlement;
  }

  /** What a claim is told, from the operations before it: it acquires the invocation if and
      only if it is the first to claim it; it conflicts if the first claimed another request;
      it is given the result or the failure that settled it; and until then it is told that it
      is in progress as long as the first claim lasts, and from then on that it is uncertain. */
  lemma ClaimFollowsHistory(ops: seq<Operation>, e: Envelope, now: real, token: string)
    ensures
      var c := FirstClaim(ops, e.id);
      var outcome := ClaimOutcome(ApplyAll(map[], ops), e, now, token);
      if c == |ops| then outcome == Acquired(token)
      else if ops[c].envelope.request != e.request then outcome == ClaimConflict
      else
        var s := FirstSettlement(ops, e.id, ops[c].token, c);
        if s == |ops| then
          outcome == if ops[c].now + AtLeastOne(ops[c].leaseSeconds) <= now then Uncertain else InProgress
        else
          match ops[s].settlement
          case Complete(result) => outcome == Replay(result)
          case Fail(failureType, message) =>
            outcome == FailedBefore(failureType, if |message| <= 500 then message else message[..500])
  {
    RecordsFollowHistory(ops, e.id);
    hide ApplyAll, FirstClaim, FirstSettlement;
  }

  /** What a settlement is told: nothing is recorded for an invocation never claimed; before
      it is settled, exactly the claim's token, which must not be empty, settles it; after
      that, the same result, or any failure after a failure, is accepted and changes nothing,
      and everything else conflicts. */
  lemma SettlementFollowsHistory(ops: seq<Operation>, id: string, token: string, settlement: Settlement, now: real)
    ensures
      var c, records := FirstClaim(ops, id), ApplyAll(map[], ops);
      var outcome := SettleOutcome(records, id, token, settlement, now);
      if c == |ops| then outcome == SettleConflict
      else
        var s := FirstSettlement(ops, id, ops[c].token, c);
        if s == |ops| then
          outcome == if token != "" && token == ops[c].token
                     then Recorded(RecordOf(ops + [DoSettle(id, token, settlement, now)], c, s)) else SettleConflict
        else if (ops[s].settlement.Fail? && settlement.Fail?) || (ops[s].settlement.Complete? && ops[s].settlement == settlement)
        then outcome == Recorded(RecordOf(ops, c, s)) && AfterSettle(records, id, token, settlement, now) == records
        else outcome == SettleConflict && AfterSettle(records, id, token, settlement, now) == records
  {
    RecordsFollowHistory(ops, id);
    hide ApplyAll, FirstClaim, FirstSettlement;
    var c, records := FirstClaim(ops, id), ApplyAll(map[], ops);
    if c < |ops| {
      var s := FirstSettlement(ops, id, ops[c].token, c);
      if s == |ops| {
        var all := ops + [DoSettle(id, token, settlement, now)];
        assert all[c] == ops[c] && all[s] == DoSettle(id, token, settlement, now);
      } else {
        assert records[id := records[id]] == records;
      }
    }
  }

  // ---------------------------------------------------------------- workers that are not disturbed

  /** A worker that claims an invocation first, whose provider answers and whose turn is
      accepted, has called the provider once, has recorded the turn, and returns it. */
  lemma FirstWorkerFinishes(sys: System, w: nat, claim: Input, call: Input, answer: Input)
    requires w < |sys.workers| && sys.workers[w].phase == NotStarted && sys.workers[w].envelope.id !in sys.records
    requires claim.token != "" && call.reply.Some? && answer.accepted
    ensures
      var id := sys.workers[w].envelope.id;
      var after := Step(Step(Step(sys, w, claim), w, call), w, answer);
      && after.workers == sys.workers[w := sys.workers[w].(phase := Finished(call.reply.value))]
      && after.calls == sys.calls + [id]
      && after.records == sys.records[id := Record(sys.workers[w].envelope, Completed, "", None, Some(call.reply.value), "", "", answer.now)]
  {
    var id := sys.workers[w].envelope.id;
    var claimed := Step(sys, w, claim);
    assert claimed.workers[w].phase == Calling(claim.token);
    var called := Step(claimed, w, call);
    assert called.workers[w].phase == Answered(claim.token, call.reply.value) && called.calls == sys.calls + [id];
    assert called.records[id].status == Running && called.records[id].claimToken == claim.token;
  }

  /** A worker that claims it first and whose provider fails records the failure and raises. */
  lemma FirstWorkerFails(sys: System, w: nat, claim: Input, call: Input, failure: Input)
    requires w < |sys.workers| && sys.workers[w].phase == NotStarted && sys.workers[w].envelope.id !in sys.records
    requires claim.token != "" && call.reply.None?
    ensures
      var id := sys.workers[w].envelope.id;
      var after := Step(Step(Step(sys, w, claim), w, call), w, failure);
      && after.workers == sys.workers[w := sys.workers[w].(phase := Raised)] && after.calls == sys.calls + [id]
      && id in after.records && after.records[id].status == Failed
      && after.records[id].failureType == failure.failureType
      && after.records[id].failureMessage
           == (if |failure.failureMessage| <= 500 then failure.failureMessage else failure.failureMessage[..500])
  {
    var id := sys.workers[w].envelope.id;
    var claimed := Step(sys, w, claim);
    assert claimed.workers[w].phase == Calling(claim.token);
    var called := Step(claimed, w, call);
    assert called.workers[w].phase == Failing(claim.token);
    assert called.records[id].status == Running && called.records[id].claimToken == claim.token;
  }

  /** A worker that comes after the invocation is completed returns the recorded result, without
      a call and without changing a record; one with another request is turned away. */
  lemma LaterWorkerReplays(sys: System, w: nat, claim: Input, answer: Input)
    requires w < |sys.workers| && sys.workers[w].phase == NotStarted && sys.workers[w].envelope.id in sys.records
    requires
      var r := sys.records[sys.workers[w].envelope.id];
      r.status == Completed && r.result.Some?
    ensures
      var r := sys.records[sys.workers[w].envelope.id];
      var after := Step(Step(sys, w, claim), w, answer);
      && after.records == sys.records && after.calls == sys.calls
      && after.workers == sys.workers[w := sys.workers[w].(
           phase := if r.envelope.request != sys.workers[w].envelope.request || !answer.accepted then Raised
                    else Finished(r.result.value))]
  {
    var r := sys.records[sys.workers[w].envelope.id];
    var claimed := Step(sys, w, claim);
    assert claimed.workers[w].phase
        == if r.envelope.request != sys.workers[w].envelope.request then Raised else Answered("", r.result.value);
  }

  /** A turn that is not accepted is recorded as the failure it is, and the worker raises. */
  lemma RejectedTurnFails(sys: System, w: nat, claim: Input, call: Input, answer: Input, failure: Input)
    requires w < |sys.workers| && sys.workers[w].phase == NotStarted && sys.workers[w].envelope.id !in sys.records
    requires claim.token != "" && call.reply.Some? && !answer.accepted
    ensures
      var id := sys.workers[w].envelope.id;
      var after := Step(Step(Step(Step(sys, w, claim), w, call), w, answer), w, failure);
      && after.workers == sys.workers[w := sys.workers[w].(phase := Raised)] && after.calls == sys.calls + [id]
      && id in after.records && after.records[id].status == Failed && after.records[id].failureType == failure.failureType
  {
    var id := sys.workers[w].envelope.id;
    var claimed := Step(sys, w, claim);
    assert claimed.workers[w].phase == Calling(claim.token);
    var called := Step(claimed, w, call);
    assert called.workers[w].phase == Answered(claim.token, call.reply.value);
    var rejected := Step(called, w, answer);
    assert rejected.workers[w].phase == Failing(claim.token);
    assert rejected.records[id].status == Running && rejected.records[id].claimToken == claim.token;
  }

  /** A worker that is told of a conflict, an earlier failure, progress or uncertainty raises,
      without a call and without changing anything. */
  lemma WorkerIsTurnedAway(sys: System, w: nat, claim: Input)
    requires w < |sys.workers| && sys.workers[w].phase == NotStarted
    requires
      var outcome := ClaimOutcome(sys.records, sys.workers[w].envelope, claim.now, claim.token);
      !outcome.Acquired? && !outcome.Replay?
    ensures Step(sys, w, claim) == sys.(workers := sys.workers[w := sys.workers[w].(phase := Raised)])
  {
    assert AfterClaim(sys.records, sys.workers[w].envelope, claim.leaseSeconds, claim.now, claim.token) == sys.records;
  }
}
