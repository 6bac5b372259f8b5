/** Guardrail decisions, how they combine, and the runner that replays them. */
module Guardrails {
  import opened Options
  import opened PyText
  import opened Sorting

  datatype Action = Allow | Transform | RequireApproval | Block

  datatype Scope = Global | Package | SkillScope | ToolScope | RunScope

  /** `patch` and `diagnostics` are dictionaries; their values are text here. */
  datatype Decision = Decision(
    action: Action, reason: string, code: string, patch: map<string, string>, redactions: seq<string>,
    diagnostics: map<string, string>, approvalTitle: string, approvalPrompt: string)

  datatype Request = Request(
    stage: string, operationId: string, packageIds: seq<string>, skillId: string, toolName: string, runId: string)

  datatype Spec = Spec(id: string, stage: string, priority: int, scope: Scope, selector: string, required: bool)

  // ---------------------------------------------------------------- decisions

  function Rank(action: Action): nat {
    match action
    case Allow => 0
    case Transform => 1
    case RequireApproval => 2
    case Block => 3
  }

  function StrongerAction(current: Action, incoming: Action): Action {
    if Rank(incoming) >= Rank(current) then incoming else current
  }

  predicate Terminal(d: Decision) {
    d.action == Block || d.action == RequireApproval
  }

  /** The first of each, in order: `dict.fromkeys`. */
  function Distinct(names: seq<string>): seq<string> {
    if names == [] then []
    else
      var front, last := Distinct(names[..|names| - 1]), names[|names| - 1];
      if last in front then front else front + [last]
  }

  function StripAll(names: seq<string>): seq<string> {
    if names == [] then []
    else
      var last := Strip(names[|names| - 1]);
      StripAll(names[..|names| - 1]) + (if last == "" then [] else [last])
  }

  /** What constructing a decision makes of its redactions. */
  function Normal(redactions: seq<string>): seq<string> {
    Distinct(StripAll(redactions))
  }

  const ALLOWED := Decision(Allow, "", "", map[], [], map[], "", "")

  function OrElse(incoming: string, current: string): string {
    if incoming == "" then current else incoming
  }

  function Merge(current: Decision, incoming: Decision): Decision {
    Decision(
      StrongerAction(current.action, incoming.action),
      OrElse(incoming.reason, current.reason),
      OrElse(incoming.code, current.code),
      current.patch + incoming.patch,
      Normal(current.redactions + incoming.redactions),
      current.diagnostics + incoming.diagnostics,
      OrElse(incoming.approvalTitle, current.approvalTitle),
      OrElse(incoming.approvalPrompt, current.approvalPrompt))
  }

  /** A decision as its constructor leaves it. */
  ghost predicate Constructed(d: Decision) {
    Normal(d.redactions) == d.redactions
  }

  lemma {:induction false} StripAllConcat(a: seq<string>, b: seq<string>)
    ensures StripAll(a + b) == StripAll(a) + StripAll(b)
  {
    hide Strip;
    if b == [] {
      assert a + b == a;
    } else {
      assert (a + b)[..|a + b| - 1] == a + b[..|b| - 1];
      StripAllConcat(a, b[..|b| - 1]);
    }
  }

  /** Every name is stripped and not blank. */
  ghost predicate Stripped(names: seq<string>) {
    forall n :: n in names ==> n != "" && Strip(n) == n
  }

  lemma SnocStripped(names: seq<string>, n: string)
    ensures Stripped(names + [n]) <==> Stripped(names) && n != "" && Strip(n) == n
  {
    hide Strip;
    if Stripped(names + [n]) {
      assert n in names + [n];
      forall m | m in names
        ensures m != "" && Strip(m) == m
      {
        assert m in names + [n];
      }
    }
  }

  lemma {:induction false} StripAllStrips(names: seq<string>)
    ensures Stripped(StripAll(names))
    ensures Stripped(names) ==> StripAll(names) == names
  {
    if names != [] {
      var front, last := names[..|names| - 1], names[|names| - 1];
      assert names == front + [last];
      StripAllStrips(front);
      StripTwice(last);
      SnocStripped(StripAll(front), Strip(last));
      SnocStripped(front, last);
      hide Strip, Stripped;
      assert StripAll(front) + [] == StripAll(front);
    }
  }

  lemma {:induction false} DistinctMembers(names: seq<string>)
    ensures forall n :: n in Distinct(names) <==> n in names
  {
    if names != [] {
      var front, last := names[..|names| - 1], names[|names| - 1];
      DistinctMembers(front);
      assert names == front + [last];
    }
  }

  lemma DistinctKeepsStripped(names: seq<string>)
    requires Stripped(names)
    ensures Stripped(Distinct(names))
  {
    DistinctMembers(names);
    hide Strip;
  }

  lemma {:induction false} DistinctInFront(a: seq<string>, b: seq<string>)
    ensures Distinct(Distinct(a) + b) == Distinct(a + b)
  {
    if b == [] {
      assert a + b == a && Distinct(a) + b == Distinct(a);
      DistinctTwice(a);
    } else {
      var front, last := b[..|b| - 1], b[|b| - 1];
      assert (a + b)[..|a + b| - 1] == a + front;
      assert (Distinct(a) + b)[..|Distinct(a) + b| - 1] == Distinct(a) + front;
      DistinctInFront(a, front);
    }
  }

  lemma {:induction false} DistinctTwice(a: seq<string>)
    ensures Distinct(Distinct(a)) == Distinct(a)
  {
    if a != [] {
      var front, last := a[..|a| - 1], a[|a| - 1];
      DistinctTwice(front);
      if last !in Distinct(front) {
        assert (Distinct(front) + [last])[..|Distinct(front)|] == Distinct(front);
      }
    }
  }

  lemma {:induction false} DistinctBehind(a: seq<string>, b: seq<string>)
    ensures Distinct(a + Distinct(b)) == Distinct(a + b)
  {
    if b != [] {
      var front, last := b[..|b| - 1], b[|b| - 1];
      DistinctBehind(a, front);
      assert (a + b)[..|a + b| - 1] == a + front;
      DistinctMembers(a + front);
      DistinctMembers(front);
      if last in Distinct(front) {
        assert last in a + front;
      } else {
        assert Distinct(b) == Distinct(front) + [last];
        assert (a + Distinct(b))[..|a + Distinct(b)| - 1] == a + Distinct(front);
      }
    }
  }

  lemma NormalIsNormal(a: seq<string>)
    ensures Normal(Normal(a)) == Normal(a) && Stripped(Normal(a))
  {
    StripAllStrips(a);
    DistinctKeepsStripped(StripAll(a));
    StripAllStrips(Distinct(StripAll(a)));
    DistinctTwice(StripAll(a));
    hide Strip, StripAll, Distinct, Stripped;
  }

  lemma NormalJoins(a: seq<string>, b: seq<string>, c: seq<string>)
    ensures Normal(Normal(a + b) + c) == Normal(a + Normal(b + c))
  {
    NormalInFront(a + b, c);
    NormalBehind(a, b + c);
    assert (a + b) + c == a + (b + c);
    hide Normal;
  }

  lemma NormalInFront(a: seq<string>, b: seq<string>)
    ensures Normal(Normal(a) + b) == Normal(a + b)
  {
    StripAllConcat(Normal(a), b);
    StripAllConcat(a, b);
    NormalIsNormal(a);
    StripAllStrips(Normal(a));
    hide Strip, StripAll, Distinct, Stripped;
    DistinctInFront(StripAll(a), StripAll(b));
  }

  lemma NormalBehind(a: seq<string>, b: seq<string>)
    ensures Normal(a + Normal(b)) == Normal(a + b)
  {
    StripAllConcat(a, Normal(b));
    StripAllConcat(a, b);
    NormalIsNormal(b);
    StripAllStrips(Normal(b));
    hide Strip, StripAll, Distinct, Stripped;
    DistinctBehind(StripAll(a), StripAll(b));
  }

  /** Merging is associative. */
  lemma MergeIsAssociative(a: Decision, b: Decision, c: Decision)
    ensures Merge(Merge(a, b), c) == Merge(a, Merge(b, c))
  {
    NormalJoins(a.redactions, b.redactions, c.redactions);
    hide Normal;
    assert (a.patch + b.patch) + c.patch == a.patch + (b.patch + c.patch);
    assert (a.diagnostics + b.diagnostics) + c.diagnostics == a.diagnostics + (b.diagnostics + c.diagnostics);
  }

  /** The plain allowance is neutral, and merging yields decisions as constructed. */
  lemma AllowanceIsNeutral(a: Decision, b: Decision)
    ensures Constructed(Merge(a, b))
    ensures Constructed(a) ==> Merge(ALLOWED, a) == a && Merge(a, ALLOWED) == a
  {
    hide StripAll, Distinct, Stripped;
    NormalIsNormal(a.redactions + b.redactions);
    assert [] + a.redactions == a.redactions && a.redactions + [] == a.redactions;
    hide Normal;
    assert ALLOWED.patch + a.patch == a.patch && a.patch + ALLOWED.patch == a.patch;
    assert ALLOWED.diagnostics + a.diagnostics == a.diagnostics && a.diagnostics + ALLOWED.diagnostics == a.diagnostics;
  }

  // ---------------------------------------------------------------- the runner

  predicate MatchesScope(s: Spec, r: Request) {
    match s.scope
    case Global => true
    case Package => s.selector in r.packageIds
    case SkillScope => s.selector == r.skillId
    case ToolScope => s.selector == r.toolName
    case RunScope => s.selector == r.runId
  }

  predicate Applies(s: Spec, r: Request) {
    s.stage == r.stage && MatchesScope(s, r)
  }

  predicate NoLater(a: Spec, b: Spec) {
    a.priority < b.priority || (a.priority == b.priority && TextLe(a.id, b.id))
  }

  function Applying(specs: seq<Spec>, r: Request): seq<Spec> {
    if specs == [] then []
    else
      var last := specs[|specs| - 1];
      Applying(specs[..|specs| - 1], r) + (if Applies(last, r) then [last] else [])
  }

  function InOrder(specs: seq<Spec>, r: Request): seq<Spec> {
    SortLe(NoLater, Applying(specs, r))
  }

  datatype Slot = Slot(guardrailId: string, stage: string, operationId: string)

  type Store = map<Slot, Decision>

  function SlotOf(s: Spec, r: Request): Slot {
    Slot(s.id, s.stage, r.operationId)
  }

  /** What a handler returns when it is called; it may fail. */
  type Handlers = Spec -> Option<Decision>

  datatype Outcome =
    | Decided(decision: Decision, store: Store, called: seq<string>, failed: seq<string>)
    | Aborted(guardrailId: string, store: Store)

  /** Runs guardrails in turn, from what was combined so far, until one ends the run. */
  function RunFrom(
      specs: seq<Spec>, r: Request, handlers: Handlers, store: Store, combined: Decision,
      called: seq<string>, failed: seq<string>): Outcome
  {
    if specs == [] then Decided(combined, store, called, failed)
    else
      var s := specs[0];
      if SlotOf(s, r) in store then
        var merged := Merge(combined, store[SlotOf(s, r)]);
        if Terminal(merged) then Decided(merged, store, called, failed)
        else RunFrom(specs[1..], r, handlers, store, merged, called, failed)
      else
        match handlers(s)
        case Some(decision) =>
          var merged := Merge(combined, decision);
          var kept := store[SlotOf(s, r) := decision];
          if Terminal(merged) then Decided(merged, kept, called + [s.id], failed)
          else RunFrom(specs[1..], r, handlers, kept, merged, called + [s.id], failed)
        case None =>
          if s.required then Aborted(s.id, store)
          else RunFrom(specs[1..], r, handlers, store, combined, called + [s.id], failed + [s.id])
  }

  function Run(specs: seq<Spec>, r: Request, handlers: Handlers, store: Store): Outcome {
    RunFrom(InOrder(specs, r), r, handlers, store, ALLOWED, [], [])
  }

  class GuardrailRunner {
    var specs: seq<Spec>
    var store: Store

    constructor ()
      ensures specs == [] && store == map[]
    {
      specs, store := [], map[];
    }

    method Register(s: Spec) returns (accepted: bool)
      modifies this`specs
      ensures accepted <==> forall o :: o in old(specs) ==> o.id != s.id
      ensures specs == if accepted then old(specs) + [s] else old(specs)
      ensures old(DistinctIds(specs)) ==> DistinctIds(specs)
    {
      accepted := !(exists o :: o in specs && o.id == s.id);
      if accepted {
        specs := specs + [s];
      }
    }

    method RunGuardrails(r: Request, handlers: Handlers) returns (outcome: Outcome)
      modifies this`store
      ensures outcome == Run(specs, r, handlers, old(store)) && store == outcome.store
    {
      hide Merge, InOrder;
      var guardrails := InOrder(specs, r);
      var combined := ALLOWED;
      var called: seq<string> := [];
      var failed: seq<string> := [];
      assert guardrails[0..] == guardrails;
      for i := 0 to |guardrails|
        invariant RunFrom(guardrails[i..], r, handlers, store, combined, called, failed)
               == Run(specs, r, handlers, old(store))
      {
        var s := guardrails[i];
        assert guardrails[i..][0] == s && guardrails[i..][1..] == guardrails[i + 1..];
        if SlotOf(s, r) in store {
          combined := Merge(combined, store[SlotOf(s, r)]);
          if Terminal(combined) {
            return Decided(combined, store, called, failed);
          }
          continue;
        }
        var reply := handlers(s);
        called := called + [s.id];
        if reply.Some? {
          store := store[SlotOf(s, r) := reply.value];
          combined := Merge(combined, reply.value);
          if Terminal(combined) {
            return Decided(combined, store, called, failed);
          }
        } else {
          if s.required {
            return Aborted(s.id, store);
          }
          failed := failed + [s.id];
        }
      }
      outcome := Decided(combined, store, called, failed);
    }
  }

  // ---------------------------------------------------------------- what a run decides

  /** The decisions of guardrails that do not fail, in order: replayed or newly given. */
  function Given(specs: seq<Spec>, r: Request, handlers: Handlers, store: Store): seq<Decision> {
    if specs == [] then []
    else
      var s := specs[0];
      (if SlotOf(s, r) in store then [store[SlotOf(s, r)]]
       else if handlers(s).Some? then [handlers(s).value] else []) + Given(specs[1..], r, handlers, store)
  }

  /** Decisions merged from the left, up to the first result that ends the run. */
  function MergeUntilTerminal(combined: Decision, ds: seq<Decision>): Decision
    decreases |ds|
  {
    if ds == [] then combined
    else
      var merged := Merge(combined, ds[0]);
      if Terminal(merged) then merged else MergeUntilTerminal(merged, ds[1..])
  }

  ghost predicate DistinctIds(specs: seq<Spec>) {
    forall i, j :: 0 <= i < j < |specs| ==> specs[i].id != specs[j].id
  }

  lemma {:induction false} GivenAgain(specs: seq<Spec>, r: Request, handlers: Handlers, a: Store, b: Store)
    requires forall s :: s in specs ==> (SlotOf(s, r) in a <==> SlotOf(s, r) in b)
    requires forall s :: s in specs && SlotOf(s, r) in a ==> a[SlotOf(s, r)] == b[SlotOf(s, r)]
    ensures Given(specs, r, handlers, a) == Given(specs, r, handlers, b)
  {
    if specs != [] {
      assert specs[0] in specs;
      assert forall s :: s in specs[1..] ==> s in specs;
      GivenAgain(specs[1..], r, handlers, a, b);
    }
  }

  /** A run that comes to a decision comes to the merge of what its guardrails decide, in
      order of priority and id, up to the first that ends it. */
  lemma {:induction false} RunMergesInOrder(
      specs: seq<Spec>, r: Request, handlers: Handlers, store: Store, combined: Decision,
      called: seq<string>, failed: seq<string>)
    requires DistinctIds(specs)
    requires RunFrom(specs, r, handlers, store, combined, called, failed).Decided?
    ensures RunFrom(specs, r, handlers, store, combined, called, failed).decision
         == MergeUntilTerminal(combined, Given(specs, r, handlers, store))
  {
    hide Merge;
    if specs != [] {
      var s, rest := specs[0], specs[1..];
      assert forall i :: 0 <= i < |rest| ==> rest[i] == specs[i + 1];
      var given := Given(rest, r, handlers, store);
      if SlotOf(s, r) in store {
        assert ([store[SlotOf(s, r)]] + given)[1..] == given;
        var merged := Merge(combined, store[SlotOf(s, r)]);
        if !Terminal(merged) {
          RunMergesInOrder(rest, r, handlers, store, merged, called, failed);
        }
      } else if handlers(s).Some? {
        var kept := store[SlotOf(s, r) := handlers(s).value];
        assert ([handlers(s).value] + given)[1..] == given;
        GivenAgain(rest, r, handlers, store, kept);
        var merged := Merge(combined, handlers(s).value);
        if !Terminal(merged) {
          RunMergesInOrder(rest, r, handlers, kept, merged, called + [s.id], failed);
        }
      } else {
        assert [] + given == given;
        RunMergesInOrder(rest, r, handlers, store, combined, called + [s.id], failed + [s.id]);
      }
    }
  }

  /** Blocking and asking for approval are never lost: a decision ends the run exactly
      when some guardrail's decision does. */
  lemma {:induction false} TerminalWins(combined: Decision, ds: seq<Decision>)
    requires !Terminal(combined)
    ensures Terminal(MergeUntilTerminal(combined, ds)) <==> exists i :: 0 <= i < |ds| && Terminal(ds[i])
    decreases |ds|
  {
    if ds != [] {
      var merged := Merge(combined, ds[0]);
      assert Terminal(merged) <==> Terminal(ds[0]);
      hide Merge, Terminal;
      var rest := ds[1..];
      if !Terminal(merged) {
        TerminalWins(merged, rest);
        assert forall i :: 0 <= i < |rest| ==> rest[i] == ds[i + 1];
        if exists i :: 0 <= i < |ds| && Terminal(ds[i]) {
          var i :| 0 <= i < |ds| && Terminal(ds[i]);
          assert Terminal(rest[i - 1]);
        }
      }
    }
  }

  lemma NoLaterIsTotal()
    ensures TotalOrder(NoLater)
  {
    forall a: Spec, b: Spec
      ensures NoLater(a, b) || NoLater(b, a)
    {
      TextLeIsTotal(a.id, b.id);
    }
    forall a: Spec, b: Spec, c: Spec | NoLater(a, b) && NoLater(b, c)
      ensures NoLater(a, c)
    {
      if a.priority == c.priority {
        TextLeIsTransitive(a.id, b.id, c.id);
      }
    }
  }

  lemma {:induction false} ApplyingMembers(specs: seq<Spec>, r: Request, s: Spec)
    ensures s in Applying(specs, r) <==> s in specs && Applies(s, r)
  {
    hide Applies;
    if specs != [] {
      ApplyingMembers(specs[..|specs| - 1], r, s);
      assert specs == specs[..|specs| - 1] + [specs[|specs| - 1]];
    }
  }

  /** The guardrails of a run are those of the request's stage and scope, by priority
      and, where that is the same, by id. */
  lemma RunsInOrder(specs: seq<Spec>, r: Request)
    ensures SortedLe(NoLater, InOrder(specs, r))
    ensures forall s :: s in InOrder(specs, r) <==> s in specs && Applies(s, r)
  {
    NoLaterIsTotal();
    SortLeSorts(NoLater, Applying(specs, r));
    SortLeKeeps(NoLater, Applying(specs, r));
    SameElements(InOrder(specs, r), Applying(specs, r));
    hide Applies, Applying, InOrder;
    forall s
      ensures s in InOrder(specs, r) <==> s in specs && Applies(s, r)
    {
      ApplyingMembers(specs, r, s);
    }
  }

  function SpecId(s: Spec): string {
    s.id
  }

  lemma {:induction false} ApplyingKeepsIds(specs: seq<Spec>, r: Request)
    requires DistinctIds(specs)
    ensures DistinctIds(Applying(specs, r))
  {
    hide Applies;
    if specs != [] {
      var front, last := specs[..|specs| - 1], specs[|specs| - 1];
      assert specs == front + [last];
      assert forall i :: 0 <= i < |front| ==> front[i] == specs[i];
      ApplyingKeepsIds(front, r);
      forall s | s in Applying(front, r)
        ensures s.id != last.id
      {
        ApplyingMembers(front, r, s);
        var i :| 0 <= i < |front| && front[i] == s;
        assert specs[i].id != specs[|specs| - 1].id;
      }
    }
  }

  /** Guardrails registered under distinct ids run under distinct ids. */
  lemma OrderKeepsIds(specs: seq<Spec>, r: Request)
    requires DistinctIds(specs)
    ensures DistinctIds(InOrder(specs, r))
  {
    ApplyingKeepsIds(specs, r);
    SortLeKeeps(NoLater, Applying(specs, r));
    hide NoLater, Applying;
    ById(Applying(specs, r));
    ById(InOrder(specs, r));
    DistinctIsOrderless(SpecId, Applying(specs, r), InOrder(specs, r));
  }

  lemma ById(specs: seq<Spec>)
    ensures DistinctIds(specs) <==> DistinctBy(SpecId, specs)
  {
    if DistinctBy(SpecId, specs) {
      forall i, j | 0 <= i < j < |specs|
        ensures specs[i].id != specs[j].id
      {
        assert SpecId(specs[i]) != SpecId(specs[j]);
      }
    }
  }

  /** A run that comes to a decision comes to the merge of what the guardrails of its
      stage and scope decide, by priority and id, up to the first that ends it; and it
      blocks or asks for approval exactly when one of these decisions does. */
  lemma RunDecides(specs: seq<Spec>, r: Request, handlers: Handlers, store: Store)
    requires DistinctIds(specs) && Run(specs, r, handlers, store).Decided?
    ensures
      var decision := Run(specs, r, handlers, store).decision;
      var ds := Given(InOrder(specs, r), r, handlers, store);
      && decision == MergeUntilTerminal(ALLOWED, ds)
      && (Terminal(decision) <==> exists i :: 0 <= i < |ds| && Terminal(ds[i]))
  {
    hide Merge, InOrder, RunFrom;
    OrderKeepsIds(specs, r);
    RunMergesInOrder(InOrder(specs, r), r, handlers, store, ALLOWED, [], []);
    TerminalWins(ALLOWED, Given(InOrder(specs, r), r, handlers, store));
  }

  // ---------------------------------------------------------------- running again

  /** The store keeps what it has. */
  ghost predicate Keeps(before: Store, after: Store) {
    forall slot :: slot in before ==> slot in after && after[slot] == before[slot]
  }

  lemma {:induction false} RunKeepsStore(
      specs: seq<Spec>, r: Request, handlers: Handlers, store: Store, combined: Decision,
      called: seq<string>, failed: seq<string>)
    ensures Keeps(store, RunFrom(specs, r, handlers, store, combined, called, failed).store)
    ensures
      var out := RunFrom(specs, r, handlers, store, combined, called, failed);
      out.Decided? ==> called <= out.called && failed <= out.failed
  {
    hide Merge;
    if specs != [] {
      var s := specs[0];
      if SlotOf(s, r) in store {
        RunKeepsStore(specs[1..], r, handlers, store, Merge(combined, store[SlotOf(s, r)]), called, failed);
      } else if handlers(s).Some? {
        var kept := store[SlotOf(s, r) := handlers(s).value];
        RunKeepsStore(specs[1..], r, handlers, kept, Merge(combined, handlers(s).value), called + [s.id], failed);
      } else {
        RunKeepsStore(specs[1..], r, handlers, store, combined, called + [s.id], failed + [s.id]);
      }
    }
  }

  /** If no handler failed, running the same operation again calls no handler, changes
      nothing and decides the same, whatever the handlers would now say. */
  lemma {:induction false} RunningAgainReplays(
      specs: seq<Spec>, r: Request, handlers: Handlers, later: Handlers, store: Store, combined: Decision,
      called: seq<string>, failed: seq<string>)
    requires
      var out := RunFrom(specs, r, handlers, store, combined, called, failed);
      out.Decided? && out.failed == failed
    ensures
      var out := RunFrom(specs, r, handlers, store, combined, called, failed);
      RunFrom(specs, r, later, out.store, combined, [], []) == Decided(out.decision, out.store, [], [])
  {
    hide Merge;
    if specs != [] {
      var s := specs[0];
      if SlotOf(s, r) in store {
        RunKeepsStore(specs, r, handlers, store, combined, called, failed);
        var merged := Merge(combined, store[SlotOf(s, r)]);
        if !Terminal(merged) {
          RunningAgainReplays(specs[1..], r, handlers, later, store, merged, called, failed);
        }
      } else if handlers(s).Some? {
        var kept := store[SlotOf(s, r) := handlers(s).value];
        var merged := Merge(combined, handlers(s).value);
        RunKeepsStore(specs[1..], r, handlers, kept, merged, called + [s.id], failed);
        if !Terminal(merged) {
          RunningAgainReplays(specs[1..], r, handlers, later, kept, merged, called + [s.id], failed);
        }
      } else {
        RunKeepsStore(specs[1..], r, handlers, store, combined, called + [s.id], failed + [s.id]);
      }
    }
  }

  lemma RunAgain(specs: seq<Spec>, r: Request, handlers: Handlers, later: Handlers, store: Store)
    requires Run(specs, r, handlers, store).Decided? && Run(specs, r, handlers, store).failed == []
    ensures
      var out := Run(specs, r, handlers, store);
      Run(specs, r, later, out.store) == Decided(out.decision, out.store, [], [])
  {
    hide Merge, InOrder;
    RunningAgainReplays(InOrder(specs, r), r, handlers, later, store, ALLOWED, [], []);
  }

  /** If some handler failed, running again calls a handler again. */
  lemma {:induction false} FailureIsNotReplayed(
      specs: seq<Spec>, r: Request, handlers: Handlers, later: Handlers, store: Store, combined: Decision,
      called: seq<string>, failed: seq<string>)
    requires DistinctIds(specs)
    requires
      var out := RunFrom(specs, r, handlers, store, combined, called, failed);
      out.Decided? && out.failed != failed
    ensures
      var out := RunFrom(specs, r, handlers, store, combined, called, failed);
      var again := RunFrom(specs, r, later, out.store, combined, [], []);
      again.Aborted? || again.called != []
  {
    hide Merge;
    if specs != [] {
      var s, rest := specs[0], specs[1..];
      assert forall i :: 0 <= i < |rest| ==> rest[i] == specs[i + 1];
      var out := RunFrom(specs, r, handlers, store, combined, called, failed);
      RunKeepsStore(specs, r, handlers, store, combined, called, failed);
      if SlotOf(s, r) in store {
        FailureIsNotReplayed(rest, r, handlers, later, store, Merge(combined, store[SlotOf(s, r)]), called, failed);
      } else if handlers(s).Some? {
        var kept := store[SlotOf(s, r) := handlers(s).value];
        RunKeepsStore(rest, r, handlers, kept, Merge(combined, handlers(s).value), called + [s.id], failed);
        FailureIsNotReplayed(rest, r, handlers, later, kept, Merge(combined, handlers(s).value), called + [s.id], failed);
      } else {
        OthersStaySame(rest, r, handlers, store, combined, called + [s.id], failed + [s.id], SlotOf(s, r));
        AgainCalls(specs, r, later, out.store, combined);
      }
    }
  }

  lemma AgainCalls(specs: seq<Spec>, r: Request, later: Handlers, store: Store, combined: Decision)
    requires specs != [] && SlotOf(specs[0], r) !in store
    ensures
      var again := RunFrom(specs, r, later, store, combined, [], []);
      again.Aborted? || again.called != []
  {
    hide Merge;
    var s := specs[0];
    if later(s).Some? {
      var kept := store[SlotOf(s, r) := later(s).value];
      RunKeepsStore(specs[1..], r, later, kept, Merge(combined, later(s).value), [] + [s.id], []);
    } else if !s.required {
      RunKeepsStore(specs[1..], r, later, store, combined, [] + [s.id], [] + [s.id]);
    }
  }

  /** A run writes only the slots of its own guardrails. */
  lemma {:induction false} OthersStaySame(
      specs: seq<Spec>, r: Request, handlers: Handlers, store: Store, combined: Decision,
      called: seq<string>, failed: seq<string>, slot: Slot)
    requires slot !in store && forall i :: 0 <= i < |specs| ==> SlotOf(specs[i], r) != slot
    ensures slot !in RunFrom(specs, r, handlers, store, combined, called, failed).store
  {
    hide Merge;
    if specs != [] {
      var s, rest := specs[0], specs[1..];
      assert forall i :: 0 <= i < |rest| ==> rest[i] == specs[i + 1];
      if SlotOf(s, r) in store {
        OthersStaySame(rest, r, handlers, store, Merge(combined, store[SlotOf(s, r)]), called, failed, slot);
      } else if handlers(s).Some? {
        var kept := store[SlotOf(s, r) := handlers(s).value];
        OthersStaySame(rest, r, handlers, kept, Merge(combined, handlers(s).value), called + [s.id], failed, slot);
      } else {
        OthersStaySame(rest, r, handlers, store, combined, called + [s.id], failed + [s.id], slot);
      }
    }
  }

  /** After a run in which some handler failed, the next run of the operation calls a handler. */
  lemma RunCallsAgain(specs: seq<Spec>, r: Request, handlers: Handlers, later: Handlers, store: Store)
    requires DistinctIds(specs)
    requires Run(specs, r, handlers, store).Decided? && Run(specs, r, handlers, store).failed != []
    ensures
      var again := Run(specs, r, later, Run(specs, r, handlers, store).store);
      again.Aborted? || again.called != []
  {
    hide Merge, InOrder, RunFrom;
    OrderKeepsIds(specs, r);
    FailureIsNotReplayed(InOrder(specs, r), r, handlers, later, store, ALLOWED, [], []);
  }
}
