/** The ledger that accounts usage against budgets, each operation once. */
module Budget {
  import opened Options

  datatype Aggregation = Sum | Max

  /** A limit that is absent or not positive means no limit; no operation id is the empty text. */
  datatype Request = Request(
    runId: string, metric: string, amount: real, limit: Option<real>, operationId: string, aggregation: Aggregation)

  datatype Decision = Decision(
    allowed: bool, metric: string, requested: real, used: real, remaining: Option<real>, limit: Option<real>, reason: string)

  datatype OperationKey = OperationKey(runId: string, metric: string, operationId: string)

  type Usage = map<string, real>

  datatype Ledger = Ledger(usage: map<string, Usage>, decisions: map<OperationKey, Decision>)

  const NEW_LEDGER := Ledger(map[], map[])

  function Larger(a: real, b: real): real {
    if a >= b then a else b
  }

  function Amount(r: Request): real {
    Larger(0.0, r.amount)
  }

  function LimitOf(r: Request): Option<real> {
    if r.limit.Some? && r.limit.value > 0.0 then r.limit else None
  }

  function UsageOf(usage: Usage, metric: string): real {
    if metric in usage then usage[metric] else 0.0
  }

  function RunUsage(l: Ledger, runId: string): Usage {
    if runId in l.usage then l.usage[runId] else map[]
  }

  function Used(l: Ledger, runId: string, metric: string): real {
    UsageOf(RunUsage(l, runId), metric)
  }

  function Projected(used: real, r: Request): real {
    if r.aggregation == Max then Larger(used, Amount(r)) else used + Amount(r)
  }

  predicate Fits(used: real, r: Request) {
    LimitOf(r).None? || Projected(used, r) <= LimitOf(r).value
  }

  function Left(limit: Option<real>, used: real): Option<real> {
    if limit.None? then None else Some(Larger(0.0, limit.value - used))
  }

  function KeyOf(r: Request): OperationKey {
    OperationKey(r.runId, r.metric, r.operationId)
  }

  predicate Repeats(l: Ledger, r: Request) {
    r.operationId != "" && KeyOf(r) in l.decisions
  }

  /** The decision on a request that is not a repetition. */
  function FreshDecision(used: real, r: Request, granted: string): Decision {
    var allowed := Fits(used, r);
    var after := if allowed then Projected(used, r) else used;
    Decision(allowed, r.metric, Amount(r), after, Left(LimitOf(r), after), LimitOf(r),
             if allowed then granted else r.metric + " budget exceeded")
  }

  function DecisionOn(l: Ledger, r: Request): Decision {
    if Repeats(l, r) then l.decisions[KeyOf(r)] else FreshDecision(Used(l, r.runId, r.metric), r, "budget reserved")
  }

  function Remember(l: Ledger, r: Request, d: Decision): map<OperationKey, Decision> {
    if r.operationId == "" then l.decisions else l.decisions[KeyOf(r) := d]
  }

  function Consumed(l: Ledger, r: Request): Ledger {
    if Repeats(l, r) then l
    else
      var d := DecisionOn(l, r);
      var run := RunUsage(l, r.runId);
      Ledger(l.usage[r.runId := if d.allowed then run[r.metric := d.used] else run], Remember(l, r, d))
  }

  /** Keeps, of each metric, the larger of what is on the books and what is restored. */
  function Merged(usage: Usage, restored: Usage): Usage {
    map m | m in usage.Keys + restored.Keys ::
      if m in restored then Larger(UsageOf(usage, m), restored[m]) else usage[m]
  }

  function Restored(l: Ledger, runId: string, snapshot: Usage): Ledger {
    l.(usage := l.usage[runId := Merged(RunUsage(l, runId), snapshot)])
  }

  function Cleared(l: Ledger, runId: string): Ledger {
    Ledger(l.usage - {runId}, map key | key in l.decisions && key.runId != runId :: l.decisions[key])
  }

  // ---------------------------------------------------------------- the ledger

  class BudgetLedger {
    var usage: map<string, Usage>
    var decisions: map<OperationKey, Decision>

    function View(): Ledger
      reads this
    {
      Ledger(usage, decisions)
    }

    constructor ()
      ensures View() == NEW_LEDGER
    {
      usage, decisions := map[], map[];
    }

    method Consume(r: Request) returns (decision: Decision)
      modifies this
      ensures decision == DecisionOn(old(View()), r)
      ensures View() == Consumed(old(View()), r)
    {
      var amount := Larger(0.0, r.amount);
      var limit := LimitOf(r);
      if r.operationId != "" && KeyOf(r) in decisions {
        return decisions[KeyOf(r)];
      }
      if r.runId !in usage {
        usage := usage[r.runId := map[]];
      }
      var used := UsageOf(usage[r.runId], r.metric);
      var projected := if r.aggregation == Max then Larger(used, amount) else used + amount;
      if limit.Some? && projected > limit.value {
        decision := Decision(false, r.metric, amount, used, Left(limit, used), limit, r.metric + " budget exceeded");
      } else {
        usage := usage[r.runId := usage[r.runId][r.metric := projected]];
        decision := Decision(true, r.metric, amount, projected, Left(limit, projected), limit, "budget reserved");
      }
      if r.operationId != "" {
        decisions := decisions[KeyOf(r) := decision];
      }
    }

    method Snapshot(runId: string) returns (snapshot: Usage)
      ensures snapshot == RunUsage(View(), runId)
    {
      snapshot := if runId in usage then usage[runId] else map[];
    }

    method Restore(runId: string, snapshot: Usage)
      modifies this
      ensures View() == Restored(old(View()), runId, snapshot)
    {
      ghost var before := RunUsage(View(), runId);
      var current := if runId in usage then usage[runId] else map[];
      var metrics := snapshot.Keys;
      while metrics != {}
        invariant metrics <= snapshot.Keys
        invariant usage == old(usage) && decisions == old(decisions)
        invariant current.Keys == before.Keys + (snapshot.Keys - metrics)
        invariant forall m :: m in current ==>
          current[m] == if m in snapshot && m !in metrics then Larger(UsageOf(before, m), snapshot[m]) else before[m]
      {
        var metric :| metric in metrics;
        current := current[metric := Larger(UsageOf(current, metric), snapshot[metric])];
        metrics := metrics - {metric};
      }
      assert current == Merged(before, snapshot);
      usage := usage[runId := current];
    }

    method Clear(runId: string)
      modifies this
      ensures View() == Cleared(old(View()), runId)
    {
      usage := usage - {runId};
      decisions := map key | key in decisions && key.runId != runId :: decisions[key];
    }
  }

  /** What a request would be told, without making it. */
  function Preview(usage: Usage, r: Request): Decision {
    FreshDecision(UsageOf(usage, r.metric), r, "budget available")
  }

  // ---------------------------------------------------------------- one call

  /** A request that is not a repetition is decided and charged exactly as previewed,
      but for the wording of an allowance; other metrics and runs are untouched. */
  lemma ConsumeMeetsPreview(l: Ledger, r: Request, runId: string, metric: string)
    requires !Repeats(l, r)
    ensures
      var preview := Preview(RunUsage(l, r.runId), r);
      && DecisionOn(l, r).(reason := "") == preview.(reason := "")
      && Used(Consumed(l, r), runId, metric)
           == (if runId == r.runId && metric == r.metric then preview.used else Used(l, runId, metric))
      && (preview.allowed || Used(Consumed(l, r), r.runId, r.metric) == Used(l, r.runId, r.metric))
  {
  }

  /** How a request that is not a repetition is decided: it is turned down if and only if there
      is a positive limit and what would be used is more than that, so that a request that
      exactly reaches its limit is allowed; and what is used and left is told with it. */
  lemma RequestIsDecidedExactly(l: Ledger, r: Request)
    requires !Repeats(l, r)
    ensures
      var d, used := DecisionOn(l, r), Used(l, r.runId, r.metric);
      var amount := if r.amount > 0.0 then r.amount else 0.0;
      var projected := if r.aggregation == Sum then used + amount else if amount > used then amount else used;
      var limited := r.limit.Some? && r.limit.value > 0.0;
      && (d.allowed <==> !limited || projected <= r.limit.value)
      && d.metric == r.metric && d.requested == amount
      && d.used == (if d.allowed then projected else used)
      && d.limit == (if limited then r.limit else None)
      && d.remaining == (if !limited then None
                         else if d.used < r.limit.value then Some(r.limit.value - d.used) else Some(0.0))
      && d.reason == (if d.allowed then "budget reserved" else r.metric + " budget exceeded")
  {
  }

  /** A repeated operation gets the first decision again and is not charged, whatever it asks for. */
  lemma RepetitionIsFree(l: Ledger, r: Request, again: Request)
    requires r.operationId != "" && KeyOf(again) == KeyOf(r)
    ensures
      var after := Consumed(l, r);
      DecisionOn(after, again) == DecisionOn(l, r) && Consumed(after, again) == after
  {
  }

  // ---------------------------------------------------------------- any sequence of calls

  function ConsumeAll(l: Ledger, rs: seq<Request>): Ledger
    decreases |rs|
  {
    if rs == [] then l else Consumed(ConsumeAll(l, rs[..|rs| - 1]), rs[|rs| - 1])
  }

  /** What some calls ask for of one metric, repetitions included. */
  function AskedFor(rs: seq<Request>, runId: string, metric: string): real
    decreases |rs|
  {
    if rs == [] then 0.0
    else
      var last := rs[|rs| - 1];
      AskedFor(rs[..|rs| - 1], runId, metric) + if last.runId == runId && last.metric == metric then Amount(last) else 0.0
  }

  /** Every decision on the books is an allowance. */
  ghost predicate AllAllowed(l: Ledger) {
    forall key :: key in l.decisions ==> l.decisions[key].allowed
  }

  /** Each request adds to a sum, and with what was used and what all before it ask for of its
      metric it stays within the limit it names. */
  ghost predicate WithinLimits(l: Ledger, rs: seq<Request>)
    decreases |rs|
  {
    rs == []
    || var r := rs[|rs| - 1];
       && WithinLimits(l, rs[..|rs| - 1]) && r.aggregation == Sum
       && (r.limit.None? || r.limit.value <= 0.0 || Used(l, r.runId, r.metric) + AskedFor(rs, r.runId, r.metric) <= r.limit.value)
  }

  ghost predicate UsedAtMost(l: Ledger, rs: seq<Request>, after: Ledger) {
    forall runId, metric :: Used(after, runId, metric) <= Used(l, runId, metric) + AskedFor(rs, runId, metric)
  }

  /** Requests that together stay within the limits they name are all allowed, the one that
      reaches its limit among them. */
  lemma {:induction false} WithinLimitsAllIsAllowed(l: Ledger, rs: seq<Request>)
    requires AllAllowed(l) && WithinLimits(l, rs)
    ensures forall d :: d in Decisions(l, rs) ==> d.allowed
    ensures AllAllowed(ConsumeAll(l, rs)) && UsedAtMost(l, rs, ConsumeAll(l, rs))
    decreases |rs|
  {
    hide Used, AllAllowed, DecisionOn, Consumed;
    if rs != [] {
      hide UsedAtMost;
      var front, r := rs[..|rs| - 1], rs[|rs| - 1];
      WithinLimitsAllIsAllowed(l, front);
      OneMoreAllowed(l, front, r, rs, ConsumeAll(l, front));
    }
  }

  lemma OneMoreAllowed(l: Ledger, front: seq<Request>, r: Request, rs: seq<Request>, before: Ledger)
    requires rs != [] && front == rs[..|rs| - 1] && r == rs[|rs| - 1] && WithinLimits(l, rs)
    requires AllAllowed(before) && UsedAtMost(l, front, before)
    ensures DecisionOn(before, r).allowed && AllAllowed(Consumed(before, r)) && UsedAtMost(l, rs, Consumed(before, r))
  {
    hide Used, AllAllowed, DecisionOn, Consumed;
    OneAllowed(before, r, Used(l, r.runId, r.metric) + AskedFor(front, r.runId, r.metric));
    forall runId, metric
      ensures Used(Consumed(before, r), runId, metric) <= Used(l, runId, metric) + AskedFor(rs, runId, metric)
    {
      ChargedAtMost(before, r, runId, metric);
    }
  }

  lemma OneAllowed(l: Ledger, r: Request, bound: real)
    requires AllAllowed(l) && r.aggregation == Sum && Used(l, r.runId, r.metric) <= bound
    requires r.limit.None? || r.limit.value <= 0.0 || bound + Amount(r) <= r.limit.value
    ensures DecisionOn(l, r).allowed && AllAllowed(Consumed(l, r))
  {
  }

  lemma ChargedAtMost(l: Ledger, r: Request, runId: string, metric: string)
    requires r.aggregation == Sum
    ensures Used(Consumed(l, r), runId, metric)
         <= Used(l, runId, metric) + if runId == r.runId && metric == r.metric then Amount(r) else 0.0
  {
  }

  /** The decisions the calls return, one by one. */
  function Decisions(l: Ledger, rs: seq<Request>): (ds: seq<Decision>)
    ensures |ds| == |rs|
    decreases |rs|
  {
    if rs == [] then []
    else
      var front := rs[..|rs| - 1];
      Decisions(l, front) + [DecisionOn(ConsumeAll(l, front), rs[|rs| - 1])]
  }

  /** The operation has been asked for earlier in the sequence. */
  predicate AskedBefore(rs: seq<Request>, r: Request) {
    r.operationId != "" && exists i :: 0 <= i < |rs| && KeyOf(rs[i]) == KeyOf(r)
  }

  /** What the calls come to, from their decisions alone: each operation that was
      allowed counts once, when it is first asked for. */
  function Charged(rs: seq<Request>, ds: seq<Decision>, runId: string, metric: string): real
    requires |ds| == |rs|
    decreases |rs|
  {
    if rs == [] then 0.0
    else
      var front, last := rs[..|rs| - 1], rs[|rs| - 1];
      Charged(front, ds[..|rs| - 1], runId, metric)
        + if last.runId == runId && last.metric == metric && ds[|rs| - 1].allowed && !AskedBefore(front, last)
          then Amount(last) else 0.0
  }

  lemma {:induction false} KnownOperations(l: Ledger, rs: seq<Request>, r: Request)
    requires forall key :: key in l.decisions ==> key.runId != r.runId
    ensures Repeats(ConsumeAll(l, rs), r) <==> AskedBefore(rs, r)
  {
    hide DecisionOn;
    if rs != [] {
      var front, last := rs[..|rs| - 1], rs[|rs| - 1];
      KnownOperations(l, front, r);
      assert rs == front + [last];
      assert AskedBefore(rs, r) <==> AskedBefore(front, r) || (r.operationId != "" && KeyOf(last) == KeyOf(r)) by {
        if AskedBefore(front, r) {
          var i :| 0 <= i < |front| && KeyOf(front[i]) == KeyOf(r);
          assert rs[i] == front[i];
        }
        if r.operationId != "" && KeyOf(last) == KeyOf(r) {
          assert rs[|rs| - 1] == last;
        }
      }
    }
  }

  /** Usage of a summed metric is exactly the total of the amounts allowed, each
      operation once. */
  lemma {:induction false} UsageIsTheTotalAllowed(l: Ledger, rs: seq<Request>, runId: string, metric: string)
    requires forall key :: key in l.decisions ==> key.runId != runId
    requires forall i :: 0 <= i < |rs| && rs[i].runId == runId && rs[i].metric == metric ==> rs[i].aggregation == Sum
    ensures Used(ConsumeAll(l, rs), runId, metric) == Used(l, runId, metric) + Charged(rs, Decisions(l, rs), runId, metric)
  {
    if rs != [] {
      var front, last := rs[..|rs| - 1], rs[|rs| - 1];
      UsageIsTheTotalAllowed(l, front, runId, metric);
      var before := ConsumeAll(l, front);
      var ds := Decisions(l, rs);
      assert ds[..|rs| - 1] == Decisions(l, front) && ds[|rs| - 1] == DecisionOn(before, last);
      if last.runId == runId {
        KnownOperations(l, front, last);
      }
      hide ConsumeAll, Decisions, Charged, AskedBefore;
      ChargeOfOne(before, last, runId, metric);
      UnfoldCharged(rs, ds, runId, metric);
      UnfoldConsume(l, rs);
    }
  }

  lemma UnfoldCharged(rs: seq<Request>, ds: seq<Decision>, runId: string, metric: string)
    requires |ds| == |rs| && rs != []
    ensures
      var front, last := rs[..|rs| - 1], rs[|rs| - 1];
      Charged(rs, ds, runId, metric) == Charged(front, ds[..|rs| - 1], runId, metric)
        + if last.runId == runId && last.metric == metric && ds[|rs| - 1].allowed && !AskedBefore(front, last)
          then Amount(last) else 0.0
  {
  }

  lemma UnfoldConsume(l: Ledger, rs: seq<Request>)
    requires rs != []
    ensures ConsumeAll(l, rs) == Consumed(ConsumeAll(l, rs[..|rs| - 1]), rs[|rs| - 1])
  {
  }

  lemma ChargeOfOne(l: Ledger, r: Request, runId: string, metric: string)
    requires r.runId == runId && r.metric == metric ==> r.aggregation == Sum
    ensures Used(Consumed(l, r), runId, metric) == Used(l, runId, metric)
      + if r.runId == runId && r.metric == metric && DecisionOn(l, r).allowed && !Repeats(l, r) then Amount(r) else 0.0
  {
  }

  /** With one positive limit on all requests, usage that starts within it never passes it. */
  lemma {:induction false} LimitHolds(l: Ledger, rs: seq<Request>, runId: string, metric: string, limit: real)
    requires Used(l, runId, metric) <= limit
    requires forall i :: 0 <= i < |rs| && rs[i].runId == runId && rs[i].metric == metric ==>
      LimitOf(rs[i]).Some? && LimitOf(rs[i]).value <= limit
    ensures Used(ConsumeAll(l, rs), runId, metric) <= limit
  {
    if rs != [] {
      var front, last := rs[..|rs| - 1], rs[|rs| - 1];
      LimitHolds(l, front, runId, metric, limit);
      var before := ConsumeAll(l, front);
      hide ConsumeAll;
      UnfoldConsume(l, rs);
      WithinLimit(before, last, runId, metric, limit);
    }
  }

  lemma WithinLimit(l: Ledger, r: Request, runId: string, metric: string, limit: real)
    requires Used(l, runId, metric) <= limit
    requires r.runId == runId && r.metric == metric ==> LimitOf(r).Some? && LimitOf(r).value <= limit
    ensures Used(Consumed(l, r), runId, metric) <= limit
  {
  }

  // ---------------------------------------------------------------- restoring

  lemma MergedAgain(usage: Usage, a: Usage)
    ensures Merged(Merged(usage, a), a) == Merged(usage, a)
  {
  }

  lemma MergedEitherWay(usage: Usage, a: Usage, b: Usage)
    requires forall m :: m in usage ==> usage[m] >= 0.0
    ensures Merged(Merged(usage, a), b) == Merged(Merged(usage, b), a)
  {
  }

  /** Restoring takes the pointwise maximum, so doing it again changes nothing, the order
      of two restorations does not matter, and no usage is ever lowered. */
  lemma RestoreIsAMaximum(l: Ledger, runId: string, a: Usage, b: Usage, metric: string)
    requires forall m :: m in a ==> a[m] >= 0.0
    requires forall m :: m in RunUsage(l, runId) ==> RunUsage(l, runId)[m] >= 0.0
    ensures Used(Restored(l, runId, a), runId, metric) == Larger(Used(l, runId, metric), UsageOf(a, metric))
    ensures Restored(Restored(l, runId, a), runId, a) == Restored(l, runId, a)
    ensures Restored(Restored(l, runId, a), runId, b) == Restored(Restored(l, runId, b), runId, a)
    ensures Used(l, runId, metric) <= Used(Restored(l, runId, a), runId, metric)
  {
    var usage := RunUsage(l, runId);
    MergedAgain(usage, a);
    MergedEitherWay(usage, a, b);
    assert UsageOf(Merged(usage, a), metric) == Larger(UsageOf(usage, metric), UsageOf(a, metric));
    hide Merged, Larger;
    var l1, l2 := Restored(l, runId, a), Restored(l, runId, b);
    assert l1.usage[runId := Merged(Merged(usage, a), b)] == l2.usage[runId := Merged(Merged(usage, a), b)];
    assert l1.usage[runId := Merged(Merged(usage, a), a)] == l1.usage;
    assert Used(l1, runId, metric) == UsageOf(Merged(usage, a), metric);
    MaximumIsNotLess(UsageOf(usage, metric), UsageOf(a, metric));
  }

  lemma MaximumIsNotLess(a: real, b: real)
    ensures Larger(a, b) >= a && Larger(a, b) >= b
  {
  }

  ghost predicate NonNegative(usage: Usage) {
    forall m :: m in usage ==> usage[m] >= 0.0
  }

  /** A new ledger with one run's usage restored from a snapshot of `l`: the books without
      the operations. */
  function Revived(l: Ledger, runId: string): Ledger {
    Restored(NEW_LEDGER, runId, RunUsage(l, runId))
  }

  lemma RevivedUsage(l: Ledger, runId: string, metric: string)
    requires NonNegative(RunUsage(l, runId))
    ensures Used(Revived(l, runId), runId, metric) == Used(l, runId, metric)
  {
  }

  /** An operation charged before a restoration is charged again after it exactly when it
      adds a positive amount to a sum and its limit leaves room for that. */
  lemma RestoredLedgerChargesAgainExactly(l: Ledger, r: Request)
    requires !Repeats(l, r) && NonNegative(RunUsage(l, r.runId))
    ensures
      var charged := Consumed(l, r);
      var revived := Revived(charged, r.runId);
      var used, again := Used(revived, r.runId, r.metric), Used(Consumed(revived, r), r.runId, r.metric);
      && used == Used(charged, r.runId, r.metric)
      && (again != used <==> r.aggregation == Sum && Amount(r) > 0.0 && Fits(used, r))
      && (again != used ==> again == used + Amount(r))
  {
    RevivedUsage(Consumed(l, r), r.runId, r.metric);
  }

  /** So every summed amount without a limit is counted twice. */
  lemma RestoredLedgerChargesAgain(l: Ledger, r: Request)
    requires !Repeats(l, r) && r.aggregation == Sum && LimitOf(r).None?
    requires NonNegative(RunUsage(l, r.runId))
    ensures Used(Consumed(Revived(Consumed(l, r), r.runId), r), r.runId, r.metric)
         == Used(l, r.runId, r.metric) + Amount(r) + Amount(r)
  {
    RestoredLedgerChargesAgainExactly(l, r);
  }

  lemma UsageNeverFalls(l: Ledger, r: Request, runId: string)
    requires NonNegative(RunUsage(l, runId))
    ensures NonNegative(RunUsage(Consumed(l, r), runId))
    ensures forall metric :: Used(l, runId, metric) <= Used(Consumed(l, r), runId, metric)
  {
  }

  lemma {:induction false} UsageNeverFallsAtAll(l: Ledger, rs: seq<Request>, i: nat, runId: string)
    requires NonNegative(RunUsage(l, runId)) && i <= |rs|
    ensures NonNegative(RunUsage(ConsumeAll(l, rs), runId))
    ensures forall metric :: Used(ConsumeAll(l, rs[..i]), runId, metric) <= Used(ConsumeAll(l, rs), runId, metric)
    decreases |rs|
  {
    hide Consumed, RunUsage, NonNegative;
    if i == |rs| {
      assert rs[..i] == rs;
    }
    if rs != [] {
      var front := rs[..|rs| - 1];
      UsageNeverFallsAtAll(l, front, if i < |rs| then i else i - 1, runId);
      UsageNeverFalls(ConsumeAll(l, front), rs[|rs| - 1], runId);
      assert i < |rs| ==> front[..i] == rs[..i];
    }
  }

  /** The first charge of a request that is not a repetition. */
  lemma FirstCharge(l: Ledger, r: Request)
    requires !Repeats(l, r)
    ensures
      var used := Used(l, r.runId, r.metric);
      Used(Consumed(l, r), r.runId, r.metric) == if Fits(used, r) then Projected(used, r) else used
  {
  }

  /** What is charged twice when the requests of a run are made again after a restoration:
      a request changes the usage the second time exactly when it is not a repetition,
      adds a positive amount to a sum, and still fits its limit; and each that does was
      charged the first time. */
  lemma ReplayChargesTwiceExactly(l: Ledger, rs: seq<Request>, i: nat)
    requires i < |rs| && NonNegative(RunUsage(l, rs[i].runId))
    requires forall key :: key in l.decisions ==> key.runId != rs[i].runId
    ensures
      var r := rs[i];
      var before := ConsumeAll(l, rs[..i]);
      var again := ConsumeAll(Revived(ConsumeAll(l, rs), r.runId), rs[..i]);
      var twice := && !AskedBefore(rs[..i], r) && r.aggregation == Sum && Amount(r) > 0.0
                   && Fits(Used(again, r.runId, r.metric), r);
      && (Used(Consumed(again, r), r.runId, r.metric) != Used(again, r.runId, r.metric) <==> twice)
      && (twice ==> Used(Consumed(before, r), r.runId, r.metric) == Used(before, r.runId, r.metric) + Amount(r))
  {
    var r := rs[i];
    var all := ConsumeAll(l, rs);
    var revived := Revived(all, r.runId);
    var before, again := ConsumeAll(l, rs[..i]), ConsumeAll(revived, rs[..i]);
    KnownOperations(l, rs[..i], r);
    KnownOperations(revived, rs[..i], r);
    UsageNeverFallsAtAll(l, rs, |rs|, r.runId);
    RevivedUsage(all, r.runId, r.metric);
    RevivedIsNonNegative(all, r.runId);
    UsageNeverFallsAtAll(revived, rs[..i], 0, r.runId);
    hide ConsumeAll, AskedBefore, Consumed, Revived, RunUsage, NonNegative, Repeats, Used;
    if AskedBefore(rs[..i], r) {
      RepeatedChangesNothing(again, r);
    } else {
      SecondCharge(l, rs, i, before, again);
    }
  }

  lemma RevivedIsNonNegative(l: Ledger, runId: string)
    requires NonNegative(RunUsage(l, runId))
    ensures NonNegative(RunUsage(Revived(l, runId), runId)) && Revived(l, runId).decisions == map[]
  {
  }

  lemma RepeatedChangesNothing(l: Ledger, r: Request)
    requires Repeats(l, r)
    ensures Consumed(l, r) == l
  {
  }

  lemma SecondCharge(l: Ledger, rs: seq<Request>, i: nat, before: Ledger, again: Ledger)
    requires i < |rs| && before == ConsumeAll(l, rs[..i]) && NonNegative(RunUsage(l, rs[i].runId))
    requires !Repeats(before, rs[i]) && !Repeats(again, rs[i])
    requires Used(ConsumeAll(l, rs), rs[i].runId, rs[i].metric) <= Used(again, rs[i].runId, rs[i].metric)
    ensures
      var r := rs[i];
      var twice := r.aggregation == Sum && Amount(r) > 0.0 && Fits(Used(again, r.runId, r.metric), r);
      && (Used(Consumed(again, r), r.runId, r.metric) != Used(again, r.runId, r.metric) <==> twice)
      && (twice ==> Used(Consumed(before, r), r.runId, r.metric) == Used(before, r.runId, r.metric) + Amount(r))
  {
    hide ConsumeAll, Consumed, Used, RunUsage, Repeats, NonNegative;
    var r := rs[i];
    FirstCharge(before, r);
    FirstCharge(again, r);
    UsageNeverFallsAtAll(l, rs, i + 1, r.runId);
    assert rs[..i + 1][..i] == rs[..i];
    UnfoldConsume(l, rs[..i + 1]);
    UsageNeverFallsAtAll(l, rs, i, r.runId);
  }

  /** Clearing a run forgets its usage and its operations, and nothing of other runs. */
  lemma ClearForgetsOneRun(l: Ledger, runId: string, other: string, metric: string, r: Request)
    ensures Used(Cleared(l, runId), other, metric) == if other == runId then 0.0 else Used(l, other, metric)
    ensures Repeats(Cleared(l, runId), r) <==> r.runId != runId && Repeats(l, r)
  {
  }
}
