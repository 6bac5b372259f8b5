/** How far a run of guardrails goes, what it remembers and when it is aborted, told from
    the guardrails, their handlers and what is stored. */
module GuardrailOutcomes {
  import opened Options
  import opened PyText
  import opened Sorting
  import opened Guardrails

  // ---------------------------------------------------------------- how far a run goes

  /** What a guardrail decides: what is stored for it, or what its handler says. */
  function ReplyOf(s: Spec, r: Request, handlers: Handlers, store: Store): Option<Decision> {
    if Slot(s.id, s.stage, r.operationId) in store then Some(store[Slot(s.id, s.stage, r.operationId)]) else handlers(s)
  }

  /** It is required, nothing is stored for it, and its handler fails. */
  predicate Breaks(s: Spec, r: Request, handlers: Handlers, store: Store) {
    s.required && Slot(s.id, s.stage, r.operationId) !in store && handlers(s).None?
  }

  /** It blocks, or asks for approval. */
  predicate EndsRun(s: Spec, r: Request, handlers: Handlers, store: Store) {
    var reply := ReplyOf(s, r, handlers, store);
    reply.Some? && (reply.value.action == Block || reply.value.action == RequireApproval)
  }

  predicate GoesOn(s: Spec, r: Request, handlers: Handlers, store: Store) {
    !Breaks(s, r, handlers, store) && !EndsRun(s, r, handlers, store)
  }

  /** The run goes past the first `n` guardrails and no further. */
  ghost predicate StopsAt(specs: seq<Spec>, r: Request, handlers: Handlers, store: Store, n: nat) {
    && n <= |specs| && (forall i :: 0 <= i < n ==> GoesOn(specs[i], r, handlers, store))
    && (n < |specs| ==> !GoesOn(specs[n], r, handlers, store))
  }

  lemma {:induction false} SomewhereItStops(specs: seq<Spec>, r: Request, handlers: Handlers, store: Store, from: nat)
    returns (n: nat)
    requires from <= |specs| && forall i :: 0 <= i < from ==> GoesOn(specs[i], r, handlers, store)
    ensures StopsAt(specs, r, handlers, store, n)
    decreases |specs| - from
  {
    hide GoesOn;
    if from < |specs| && GoesOn(specs[from], r, handlers, store) {
      n := SomewhereItStops(specs, r, handlers, store, from + 1);
    } else {
      n := from;
    }
  }

  /** How many guardrails a run has decisions or failures of: one that ends it counts, one
      that breaks it does not. */
  function Reached(specs: seq<Spec>, r: Request, handlers: Handlers, store: Store, n: nat): nat
    requires n <= |specs|
  {
    if n < |specs| && !Breaks(specs[n], r, handlers, store) then n + 1 else n
  }

  /** The ids of those whose handlers were called: nothing was stored for them. */
  function CalledOf(specs: seq<Spec>, r: Request, store: Store): seq<string> {
    if specs == [] then []
    else (if Slot(specs[0].id, specs[0].stage, r.operationId) in store then [] else [specs[0].id]) + CalledOf(specs[1..], r, store)
  }

  function FailedOf(specs: seq<Spec>, r: Request, handlers: Handlers, store: Store): seq<string> {
    if specs == [] then []
    else
      (if ReplyOf(specs[0], r, handlers, store).None? then [specs[0].id] else []) + FailedOf(specs[1..], r, handlers, store)
  }

  /** What is stored afterwards: all that was, and the new decision of each of these
      guardrails that has one; nothing for one that failed, nor for any other. */
  ghost predicate Remembers(before: Store, specs: seq<Spec>, r: Request, handlers: Handlers, after: Store) {
    && (forall slot :: slot in before ==> slot in after && after[slot] == before[slot])
    && (forall i :: 0 <= i < |specs| && SlotOf(specs[i], r) !in before ==>
          if handlers(specs[i]).Some? then SlotOf(specs[i], r) in after && after[SlotOf(specs[i], r)] == handlers(specs[i]).value
          else SlotOf(specs[i], r) !in after)
    && (forall slot :: slot in after && slot !in before ==> exists i :: 0 <= i < |specs| && SlotOf(specs[i], r) == slot)
  }

  // ---------------------------------------------------------------- one guardrail after the other

  lemma DistinctRest(specs: seq<Spec>)
    requires specs != [] && DistinctIds(specs)
    ensures DistinctIds(specs[1..]) && forall s :: s in specs[1..] ==> s.id != specs[0].id
  {
    var rest := specs[1..];
    assert forall i :: 0 <= i < |rest| ==> rest[i] == specs[i + 1];
  }

  /** A decision stored for another guardrail changes nothing for these. */
  lemma StopsAlike(specs: seq<Spec>, r: Request, handlers: Handlers, store: Store, first: Spec, d: Decision, n: nat)
    requires forall s :: s in specs ==> s.id != first.id
    ensures
      var kept := store[SlotOf(first, r) := d];
      && (StopsAt(specs, r, handlers, store, n) <==> StopsAt(specs, r, handlers, kept, n))
      && (n <= |specs| ==> Reached(specs, r, handlers, kept, n) == Reached(specs, r, handlers, store, n))
  {
    var kept := store[SlotOf(first, r) := d];
    forall i | 0 <= i < |specs|
      ensures GoesOn(specs[i], r, handlers, kept) <==> GoesOn(specs[i], r, handlers, store)
      ensures Breaks(specs[i], r, handlers, kept) <==> Breaks(specs[i], r, handlers, store)
    {
      assert specs[i].id != first.id;
    }
  }

  lemma {:induction false} ListsAlike(specs: seq<Spec>, r: Request, handlers: Handlers, store: Store, first: Spec, d: Decision)
    requires forall s :: s in specs ==> s.id != first.id
    ensures
      var kept := store[SlotOf(first, r) := d];
      && CalledOf(specs, r, kept) == CalledOf(specs, r, store)
      && FailedOf(specs, r, handlers, kept) == FailedOf(specs, r, handlers, store)
  {
    if specs != [] {
      assert specs[0].id != first.id;
      ListsAlike(specs[1..], r, handlers, store, first, d);
    }
  }

  lemma RemembersMore(before: Store, specs: seq<Spec>, r: Request, handlers: Handlers, after: Store)
    requires specs != [] && DistinctIds(specs)
    requires
      var s := specs[0];
      var kept := if SlotOf(s, r) !in before && handlers(s).Some? then before[SlotOf(s, r) := handlers(s).value] else before;
      Remembers(kept, specs[1..], r, handlers, after)
    ensures Remembers(before, specs, r, handlers, after)
  {
    DistinctRest(specs);
    var s, rest := specs[0], specs[1..];
    var kept := if SlotOf(s, r) !in before && handlers(s).Some? then before[SlotOf(s, r) := handlers(s).value] else before;
    forall i | 0 <= i < |specs| && SlotOf(specs[i], r) !in before
      ensures if handlers(specs[i]).Some? then SlotOf(specs[i], r) in after && after[SlotOf(specs[i], r)] == handlers(specs[i]).value
              else SlotOf(specs[i], r) !in after
    {
      if i > 0 {
        assert rest[i - 1] == specs[i] && specs[i] in rest;
        assert SlotOf(rest[i - 1], r) !in kept;
      }
    }
    forall slot | slot in after && slot !in before
      ensures exists i :: 0 <= i < |specs| && SlotOf(specs[i], r) == slot
    {
      if slot in kept {
        assert SlotOf(specs[0], r) == slot;
      } else {
        var j :| 0 <= j < |rest| && SlotOf(rest[j], r) == slot;
        assert SlotOf(specs[j + 1], r) == slot;
      }
    }
  }

  /** What a run over some guardrails comes to. */
  ghost predicate ComesTo(
      specs: seq<Spec>, r: Request, handlers: Handlers, store: Store, called: seq<string>, failed: seq<string>,
      n: nat, out: Outcome)
    requires n <= |specs|
  {
    var reached := specs[..Reached(specs, r, handlers, store, n)];
    && Remembers(store, reached, r, handlers, out.store)
    && if n < |specs| && Breaks(specs[n], r, handlers, store) then out == Aborted(specs[n].id, out.store)
       else
         && out.Decided? && out.called == called + CalledOf(reached, r, store)
         && out.failed == failed + FailedOf(reached, r, handlers, store)
  }

  /** What is stored, called and failed after one guardrail. */
  function KeptAfter(s: Spec, r: Request, handlers: Handlers, store: Store): Store {
    if SlotOf(s, r) !in store && handlers(s).Some? then store[SlotOf(s, r) := handlers(s).value] else store
  }

  lemma MergedEnds(combined: Decision, d: Decision)
    requires !Terminal(combined)
    ensures Terminal(Merge(combined, d)) <==> d.action == Block || d.action == RequireApproval
  {
  }

  lemma OneOf(s: Spec, r: Request, handlers: Handlers, store: Store)
    ensures CalledOf([s], r, store) == if SlotOf(s, r) in store then [] else [s.id]
    ensures FailedOf([s], r, handlers, store) == if ReplyOf(s, r, handlers, store).None? then [s.id] else []
  {
    assert [s][1..] == [];
  }

  /** One step of a run. */
  lemma RunStep(
      specs: seq<Spec>, r: Request, handlers: Handlers, store: Store, combined: Decision,
      called: seq<string>, failed: seq<string>) returns (next: Decision)
    requires specs != [] && !Terminal(combined)
    ensures
      var s := specs[0];
      var out := RunFrom(specs, r, handlers, store, combined, called, failed);
      var calledToo, failedToo := called + CalledOf([s], r, store), failed + FailedOf([s], r, handlers, store);
      if Breaks(s, r, handlers, store) then out == Aborted(s.id, store)
      else if EndsRun(s, r, handlers, store) then out == Decided(next, KeptAfter(s, r, handlers, store), calledToo, failedToo)
      else
        !Terminal(next)
        && out == RunFrom(specs[1..], r, handlers, KeptAfter(s, r, handlers, store), next, calledToo, failedToo)
  {
    var s := specs[0];
    var reply := ReplyOf(s, r, handlers, store);
    OneOf(s, r, handlers, store);
    assert called + [] == called && failed + [] == failed;
    hide CalledOf, FailedOf;
    next := if reply.Some? then Merge(combined, reply.value) else combined;
    if reply.Some? {
      MergedEnds(combined, reply.value);
    }
    hide Merge;
  }

  lemma ListsOf(s: Spec, rest: seq<Spec>, r: Request, handlers: Handlers, store: Store)
    requires forall o :: o in rest ==> o.id != s.id
    ensures
      var kept := KeptAfter(s, r, handlers, store);
      && CalledOf([s] + rest, r, store) == CalledOf([s], r, store) + CalledOf(rest, r, kept)
      && FailedOf([s] + rest, r, handlers, store) == FailedOf([s], r, handlers, store) + FailedOf(rest, r, handlers, kept)
  {
    assert ([s] + rest)[1..] == rest && [s][1..] == [];
    if KeptAfter(s, r, handlers, store) != store {
      ListsAlike(rest, r, handlers, store, s, handlers(s).value);
    }
  }

  lemma StoppedRest(specs: seq<Spec>, r: Request, handlers: Handlers, store: Store, n: nat)
    requires DistinctIds(specs) && specs != [] && n > 0 && StopsAt(specs, r, handlers, store, n)
    ensures
      var rest, kept := specs[1..], KeptAfter(specs[0], r, handlers, store);
      && StopsAt(rest, r, handlers, kept, n - 1)
      && Reached(rest, r, handlers, kept, n - 1) + 1 == Reached(specs, r, handlers, store, n)
      && (n < |specs| ==> (Breaks(specs[n], r, handlers, store) <==> Breaks(rest[n - 1], r, handlers, kept)))
  {
    DistinctRest(specs);
    var rest := specs[1..];
    hide GoesOn;
    forall i | 0 <= i < n - 1
      ensures GoesOn(rest[i], r, handlers, store)
    {
      assert rest[i] == specs[i + 1];
    }
    assert n < |specs| ==> rest[n - 1] == specs[n] && specs[n] in rest;
    assert StopsAt(rest, r, handlers, store, n - 1);
    if KeptAfter(specs[0], r, handlers, store) != store {
      StopsAlike(rest, r, handlers, store, specs[0], handlers(specs[0]).value, n - 1);
    }
  }

  lemma {:induction false} RunComesTo(
      specs: seq<Spec>, r: Request, handlers: Handlers, store: Store, combined: Decision,
      called: seq<string>, failed: seq<string>, n: nat)
    requires DistinctIds(specs) && StopsAt(specs, r, handlers, store, n)
    requires !Terminal(combined)
    ensures ComesTo(specs, r, handlers, store, called, failed, n, RunFrom(specs, r, handlers, store, combined, called, failed))
  {
    hide Merge, DistinctIds, Terminal;
    if specs == [] {
      assert specs[..0] == [] && called + [] == called && failed + [] == failed;
    } else {
      var s, rest := specs[0], specs[1..];
      var next := RunStep(specs, r, handlers, store, combined, called, failed);
      DistinctRest(specs);
      hide RunFrom;
      if n == 0 {
        FirstStops(specs, r, handlers, store, called, failed, next);
      } else {
        var kept := KeptAfter(s, r, handlers, store);
        var calledToo, failedToo := called + CalledOf([s], r, store), failed + FailedOf([s], r, handlers, store);
        StoppedRest(specs, r, handlers, store, n);
        RunComesTo(rest, r, handlers, kept, next, calledToo, failedToo, n - 1);
        ComesToMore(specs, r, handlers, store, called, failed, n, RunFrom(rest, r, handlers, kept, next, calledToo, failedToo));
      }
    }
  }

  lemma FirstStops(specs: seq<Spec>, r: Request, handlers: Handlers, store: Store, called: seq<string>, failed: seq<string>, next: Decision)
    requires specs != [] && StopsAt(specs, r, handlers, store, 0)
    ensures
      var s := specs[0];
      ComesTo(specs, r, handlers, store, called, failed, 0,
              if Breaks(s, r, handlers, store) then Aborted(s.id, store)
              else Decided(next, KeptAfter(s, r, handlers, store), called + CalledOf([s], r, store),
                           failed + FailedOf([s], r, handlers, store)))
  {
    assert specs[..0] == [] && specs[..1] == [specs[0]];
  }

  lemma ComesToMore(
      specs: seq<Spec>, r: Request, handlers: Handlers, store: Store, called: seq<string>, failed: seq<string>, n: nat, out: Outcome)
    requires DistinctIds(specs) && specs != [] && 0 < n && StopsAt(specs, r, handlers, store, n)
    requires n - 1 <= |specs[1..]|
    requires
      ComesTo(specs[1..], r, handlers, KeptAfter(specs[0], r, handlers, store), called + CalledOf([specs[0]], r, store),
              failed + FailedOf([specs[0]], r, handlers, store), n - 1, out)
    ensures ComesTo(specs, r, handlers, store, called, failed, n, out)
  {
    var s, rest := specs[0], specs[1..];
    var kept := KeptAfter(s, r, handlers, store);
    DistinctRest(specs);
    StoppedRest(specs, r, handlers, store, n);
    var m := Reached(specs, r, handlers, store, n);
    var reached := rest[..m - 1];
    FrontOf(specs, m);
    assert n < |specs| ==> rest[n - 1] == specs[n];
    assert forall o :: o in reached ==> o in rest;
    hide DistinctIds, StopsAt, Breaks, ReplyOf, CalledOf, FailedOf, Remembers, Reached, KeptAfter;
    ListsOf(s, reached, r, handlers, store);
    RemembersReached(store, specs[..m], reached, r, handlers, out.store);
    JoinIds(called, CalledOf([s], r, store), CalledOf(reached, r, kept));
    JoinIds(failed, FailedOf([s], r, handlers, store), FailedOf(reached, r, handlers, kept));
  }

  lemma FrontOf(specs: seq<Spec>, m: nat)
    requires DistinctIds(specs) && 1 <= m <= |specs|
    ensures specs[..m] == [specs[0]] + specs[1..][..m - 1] && specs[..m][1..] == specs[1..][..m - 1]
    ensures DistinctIds(specs[..m])
  {
  }

  lemma RemembersReached(before: Store, front: seq<Spec>, reached: seq<Spec>, r: Request, handlers: Handlers, after: Store)
    requires front != [] && DistinctIds(front) && reached == front[1..]
    requires Remembers(KeptAfter(front[0], r, handlers, before), reached, r, handlers, after)
    ensures Remembers(before, front, r, handlers, after)
  {
    hide Remembers, DistinctIds;
    RemembersMore(before, front, r, handlers, after);
  }

  lemma JoinIds(a: seq<string>, b: seq<string>, c: seq<string>)
    ensures a + (b + c) == (a + b) + c
  {
  }

  // ---------------------------------------------------------------- runs

  /** A run goes on, in order of priority and id, to the first guardrail that blocks, asks for
      approval, or is required and fails without a stored decision; and to the end if there
      is none. The last of these, and nothing else, aborts it, under that guardrail's name.
      Exactly the handlers of those reached for which nothing was stored are called, and
      every new decision before the end of the run is stored. */
  lemma RunGoesTo(specs: seq<Spec>, r: Request, handlers: Handlers, store: Store, n: nat)
    requires DistinctIds(specs) && StopsAt(InOrder(specs, r), r, handlers, store, n)
    ensures ComesTo(InOrder(specs, r), r, handlers, store, [], [], n, Run(specs, r, handlers, store))
  {
    OrderKeepsIds(specs, r);
    hide InOrder, RunFrom, StopsAt, DistinctIds;
    RunComesTo(InOrder(specs, r), r, handlers, store, ALLOWED, [], [], n);
  }

  /** A run is aborted if and only if some guardrail is required, has nothing stored, and its
      handler fails, before any other ends the run; and the abort names the first such. */
  lemma RunAbortsExactly(specs: seq<Spec>, r: Request, handlers: Handlers, store: Store)
    requires DistinctIds(specs)
    ensures
      var ordered, out := InOrder(specs, r), Run(specs, r, handlers, store);
      && (out.Aborted? <==> exists n :: 0 <= n < |ordered| && Breaks(ordered[n], r, handlers, store)
                                        && forall i :: 0 <= i < n ==> GoesOn(ordered[i], r, handlers, store))
      && (forall n :: 0 <= n < |ordered| && Breaks(ordered[n], r, handlers, store)
                      && (forall i :: 0 <= i < n ==> GoesOn(ordered[i], r, handlers, store)) ==>
            && out == Aborted(ordered[n].id, out.store)
            && Remembers(store, ordered[..n], r, handlers, out.store))
  {
    var ordered := InOrder(specs, r);
    hide InOrder, Run, EndsRun, Remembers, DistinctIds, CalledOf, FailedOf;
    var stop := SomewhereItStops(ordered, r, handlers, store, 0);
    RunGoesTo(specs, r, handlers, store, stop);
    forall n | 0 <= n < |ordered| && Breaks(ordered[n], r, handlers, store)
               && (forall i :: 0 <= i < n ==> GoesOn(ordered[i], r, handlers, store))
      ensures n == stop
    {
      assert !GoesOn(ordered[n], r, handlers, store);
    }
  }

  // ---------------------------------------------------------------- which guardrails, and in which order

  /** The guardrails of a run, scope by scope, and the order they run in. */
  lemma RunsByPriority(specs: seq<Spec>, r: Request)
    ensures
      var ordered := InOrder(specs, r);
      && (forall s :: s in ordered <==>
            && s in specs && s.stage == r.stage
            && (|| s.scope == Global
                || (s.scope == Package && s.selector in r.packageIds)
                || (s.scope == SkillScope && s.selector == r.skillId)
                || (s.scope == ToolScope && s.selector == r.toolName)
                || (s.scope == RunScope && s.selector == r.runId)))
      && (forall i, j :: 0 <= i < j < |ordered| ==>
            ordered[i].priority <= ordered[j].priority
            && (ordered[i].priority == ordered[j].priority ==> TextLe(ordered[i].id, ordered[j].id)))
  {
    RunsInOrder(specs, r);
    hide InOrder, TextLe;
    forall i, j | 0 <= i < j < |InOrder(specs, r)|
      ensures NoLater(InOrder(specs, r)[i], InOrder(specs, r)[j])
    {
    }
  }

  // ---------------------------------------------------------------- merged decisions

  /** Of two decisions merged, the stronger action is taken, and of everything else what the
      later one says, unless it says nothing; the redactions of both are kept once each,
      stripped, blank ones left out. */
  lemma MergeTakes(a: Decision, b: Decision)
    ensures
      var m := Merge(a, b);
      && m.action == (if a.action == Block || b.action == Block then Block
                      else if a.action == RequireApproval || b.action == RequireApproval then RequireApproval
                      else if a.action == Transform || b.action == Transform then Transform else Allow)
      && m.reason == (if b.reason != "" then b.reason else a.reason)
      && m.code == (if b.code != "" then b.code else a.code)
      && m.approvalTitle == (if b.approvalTitle != "" then b.approvalTitle else a.approvalTitle)
      && m.approvalPrompt == (if b.approvalPrompt != "" then b.approvalPrompt else a.approvalPrompt)
      && (forall key :: key in m.patch <==> key in a.patch || key in b.patch)
      && (forall key :: key in m.patch ==> m.patch[key] == if key in b.patch then b.patch[key] else a.patch[key])
      && (forall key :: key in m.diagnostics <==> key in a.diagnostics || key in b.diagnostics)
      && (forall key :: key in m.diagnostics ==>
            m.diagnostics[key] == if key in b.diagnostics then b.diagnostics[key] else a.diagnostics[key])
      && (forall name :: name in m.redactions <==> name != "" && exists x :: x in a.redactions + b.redactions && Strip(x) == name)
      && Once(m.redactions)
  {
    hide Normal;
    NormalNames(a.redactions + b.redactions);
  }

  lemma {:induction false} StrippedNames(names: seq<string>, name: string)
    ensures name in StripAll(names) <==> name != "" && exists x :: x in names && Strip(x) == name
  {
    hide Strip;
    if names != [] {
      var front, last := names[..|names| - 1], names[|names| - 1];
      assert names == front + [last];
      StrippedNames(front, name);
      if x :| x in names && Strip(x) == name {
        assert x in front || x == last;
      }
    }
  }

  ghost predicate Once(names: seq<string>) {
    forall i, j :: 0 <= i < j < |names| ==> names[i] != names[j]
  }

  lemma {:induction false} DistinctOnce(names: seq<string>)
    ensures Once(Distinct(names))
  {
    if names != [] {
      var front, last := Distinct(names[..|names| - 1]), names[|names| - 1];
      DistinctOnce(names[..|names| - 1]);
      assert last !in front ==> Once(front + [last]);
    }
  }

  lemma NormalNames(names: seq<string>)
    ensures
      var normal := Normal(names);
      && (forall name :: name in normal <==> name != "" && exists x :: x in names && Strip(x) == name)
      && Once(normal)
  {
    hide Strip, StripAll, Distinct;
    DistinctOnce(StripAll(names));
    DistinctMembers(StripAll(names));
    forall name
      ensures name in StripAll(names) <==> name != "" && exists x :: x in names && Strip(x) == name
    {
      StrippedNames(names, name);
    }
  }
}
