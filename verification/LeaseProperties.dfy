/** What holds of leases whatever workers do, in whatever order, as long as the clock
    does not run backwards. */
module LeaseProperties {
  import opened Options
  import opened Leases
  import opened PyText

  // ---------------------------------------------------------------- histories

  /** The life of one granted lease: its latest record, and when it was released. */
  datatype Span = Span(lease: Lease, releasedAt: Option<real>)

  datatype World = World(store: Store, now: real, spans: map<Key, seq<Span>>)

  function SpansOf(w: World, key: Key): seq<Span> {
    if key in w.spans then w.spans[key] else []
  }

  /** Until when the lease of a span was valid. */
  function Until(s: Span): real {
    if s.releasedAt.Some? && s.releasedAt.value < s.lease.expiresAt then s.releasedAt.value else s.lease.expiresAt
  }

  predicate ValidAt(s: Span, t: real) {
    s.lease.acquiredAt <= t < Until(s)
  }

  function KeyOfRequest(r: Request): Key {
    match r
    case Claim(runId, scope, _, _, _) => KeyOf(scope, Strip(runId))
    case Renew(lease, _) => LeaseKey(lease)
    case Release(lease) => LeaseKey(lease)
  }

  function Renewed(s: Span, lease: Lease): Span {
    s.(lease := lease)
  }

  /** How the history of the request's run goes on. */
  function NextSpans(w: World, r: Request, now: real): seq<Span> {
    var key := KeyOfRequest(r);
    var spans := SpansOf(w, key);
    match OutcomeOf(w.store, r, now)
    case Refused(_) => spans
    case Granted(lease) =>
      if r.Claim? then spans + [Span(lease, None)]
      else if spans == [] then spans
      else spans[|spans| - 1 := Renewed(spans[|spans| - 1], lease)]
    case Done =>
      if key !in w.store.leases || spans == [] then spans
      else spans[|spans| - 1 := spans[|spans| - 1].(releasedAt := Some(now))]
  }

  function Step(w: World, r: Request, now: real): World {
    World(After(w.store, r, now), now, w.spans[KeyOfRequest(r) := NextSpans(w, r, now)])
  }

  function RunAll(w: World, requests: seq<(Request, real)>): World
    decreases |requests|
  {
    if requests == [] then w
    else
      var last := requests[|requests| - 1];
      Step(RunAll(w, requests[..|requests| - 1]), last.0, last.1)
  }

  ghost predicate ClockGoesOn(w: World, requests: seq<(Request, real)>) {
    && (forall i :: 0 <= i < |requests| ==> w.now <= requests[i].1)
    && forall i, j :: 0 <= i < j < |requests| ==> requests[i].1 <= requests[j].1
  }

  // ---------------------------------------------------------------- the invariant

  /** Generations count up from one, and every lease has ended before the next begins. */
  ghost predicate InTurn(spans: seq<Span>, now: real) {
    && (forall i :: 0 <= i < |spans| ==> spans[i].lease.generation == i + 1 && spans[i].lease.acquiredAt <= now)
    && forall i, j :: 0 <= i < j < |spans| ==>
         spans[i].lease.acquiredAt <= spans[j].lease.acquiredAt && Until(spans[i]) <= spans[j].lease.acquiredAt
  }

  ghost predicate KeyInv(w: World, key: Key) {
    var spans := SpansOf(w, key);
    && GenerationOf(w.store, key) == |spans|
    && InTurn(spans, w.now)
    && (key in w.store.leases <==> spans != [] && spans[|spans| - 1].releasedAt.None?)
    && (key in w.store.leases ==>
          w.store.leases[key] == spans[|spans| - 1].lease && LeaseKey(w.store.leases[key]) == key && Strip(key.runId) == key.runId)
    && (forall i :: 0 <= i < |spans| && spans[i].releasedAt.Some? ==> spans[i].releasedAt.value <= w.now)
  }

  ghost predicate Inv(w: World) {
    forall key :: KeyInv(w, key)
  }

  lemma StepKeepsOther(w: World, r: Request, now: real, key: Key)
    requires KeyInv(w, key) && key != KeyOfRequest(r) && w.now <= now
    ensures KeyInv(Step(w, r, now), key)
    ensures SpansOf(Step(w, r, now), key) == SpansOf(w, key)
  {
    hide Strip, Until;
    var next := Step(w, r, now);
    assert SpansOf(next, key) == SpansOf(w, key);
  }

  lemma ClaimKeepsKey(w: World, runId: string, scope: Scope, owner: string, ttl: real, token: string, now: real)
    requires KeyInv(w, KeyOf(scope, Strip(runId))) && w.now <= now
    ensures
      var r := Claim(runId, scope, owner, ttl, token);
      KeyInv(Step(w, r, now), KeyOf(scope, Strip(runId)))
  {
    StripTwice(runId);
    hide Strip;
    var r := Claim(runId, scope, owner, ttl, token);
    var key := KeyOf(scope, Strip(runId));
    var spans, next := SpansOf(w, key), Step(w, r, now);
    assert SpansOf(next, key) == NextSpans(w, r, now);
    if OutcomeOf(w.store, r, now).Granted? {
      var lease := OutcomeOf(w.store, r, now).lease;
      assert SpansOf(next, key) == spans + [Span(lease, None)];
      EndedBefore(w, key, now);
      AppendInTurn(spans, w.now, Span(lease, None), now);
      hide InTurn;
    } else {
      LaterInTurn(spans, w.now, now);
      hide InTurn;
    }
  }

  lemma LaterInTurn(spans: seq<Span>, now: real, later: real)
    requires InTurn(spans, now) && now <= later
    ensures InTurn(spans, later)
  {
  }

  /** When a claim is granted, all earlier leases of the run have ended. */
  lemma EndedBefore(w: World, key: Key, now: real)
    requires KeyInv(w, key) && w.now <= now && !Live(w.store, key, now)
    ensures forall i :: 0 <= i < |SpansOf(w, key)| ==> Until(SpansOf(w, key)[i]) <= now
  {
    var spans := SpansOf(w, key);
    forall i | 0 <= i < |spans|
      ensures Until(spans[i]) <= now
    {
      if i < |spans| - 1 {
        assert Until(spans[i]) <= spans[|spans| - 1].lease.acquiredAt;
      }
    }
  }

  lemma AppendInTurn(spans: seq<Span>, now: real, s: Span, later: real)
    requires InTurn(spans, now) && now <= later
    requires s.lease.generation == |spans| + 1 && s.lease.acquiredAt == later
    requires forall i :: 0 <= i < |spans| ==> Until(spans[i]) <= later
    ensures InTurn(spans + [s], later)
  {
    hide Until;
  }

  lemma ChangeLast(spans: seq<Span>, now: real, s: Span, later: real)
    requires InTurn(spans, now) && now <= later && spans != []
    requires s.lease.generation == spans[|spans| - 1].lease.generation
    requires s.lease.acquiredAt == spans[|spans| - 1].lease.acquiredAt
    ensures InTurn(spans[|spans| - 1 := s], later)
  {
    hide Until;
  }

  lemma RenewKeepsKey(w: World, lease: Lease, ttl: real, now: real)
    requires KeyInv(w, LeaseKey(lease)) && w.now <= now
    ensures KeyInv(Step(w, Renew(lease, ttl), now), LeaseKey(lease))
  {
    hide Strip;
    var r := Renew(lease, ttl);
    var key := LeaseKey(lease);
    var spans, next := SpansOf(w, key), Step(w, r, now);
    assert SpansOf(next, key) == NextSpans(w, r, now);
    LaterInTurn(spans, w.now, now);
    if OutcomeOf(w.store, r, now).Granted? {
      ChangeLast(spans, w.now, Renewed(spans[|spans| - 1], OutcomeOf(w.store, r, now).lease), now);
    }
    hide InTurn;
  }

  lemma ReleaseKeepsKey(w: World, lease: Lease, now: real)
    requires KeyInv(w, LeaseKey(lease)) && w.now <= now
    ensures KeyInv(Step(w, Release(lease), now), LeaseKey(lease))
  {
    hide Strip;
    var r := Release(lease);
    var key := LeaseKey(lease);
    var spans, next := SpansOf(w, key), Step(w, r, now);
    assert SpansOf(next, key) == NextSpans(w, r, now);
    LaterInTurn(spans, w.now, now);
    if key in w.store.leases && Same(w.store.leases[key], lease) {
      ChangeLast(spans, w.now, spans[|spans| - 1].(releasedAt := Some(now)), now);
    }
    hide InTurn;
  }

  lemma StepKeepsInv(w: World, r: Request, now: real)
    requires Inv(w) && w.now <= now
    ensures Inv(Step(w, r, now))
  {
    hide KeyInv, Step, Strip;
    forall key
      ensures KeyInv(Step(w, r, now), key)
    {
      assert KeyInv(w, key);
      if key != KeyOfRequest(r) {
        StepKeepsOther(w, r, now, key);
      } else {
        match r
        case Claim(runId, scope, owner, ttl, token) => ClaimKeepsKey(w, runId, scope, owner, ttl, token, now);
        case Renew(lease, ttl) => RenewKeepsKey(w, lease, ttl, now);
        case Release(lease) => ReleaseKeepsKey(w, lease, now);
      }
    }
  }

  lemma {:induction false} RunKeepsInv(w: World, requests: seq<(Request, real)>)
    requires Inv(w) && ClockGoesOn(w, requests)
    ensures Inv(RunAll(w, requests))
    ensures RunAll(w, requests).now == if requests == [] then w.now else requests[|requests| - 1].1
  {
    hide Inv;
    if requests != [] {
      var front, last := requests[..|requests| - 1], requests[|requests| - 1];
      RunKeepsInv(w, front);
      StepKeepsInv(RunAll(w, front), last.0, last.1);
    }
  }

  // ---------------------------------------------------------------- the theorems

  /** Whatever is claimed, renewed and released: the leases granted for a run have the
      generations 1, 2, 3, and at no moment are two of them valid. */
  lemma LeasesTakeTurns(start: real, requests: seq<(Request, real)>, key: Key)
    requires ClockGoesOn(World(NO_LEASES, start, map[]), requests)
    ensures
      var spans := SpansOf(RunAll(World(NO_LEASES, start, map[]), requests), key);
      && (forall i :: 0 <= i < |spans| ==> spans[i].lease.generation == i + 1)
      && forall i, j, t :: 0 <= i < j < |spans| && ValidAt(spans[i], t) ==> !ValidAt(spans[j], t)
  {
    var w := World(NO_LEASES, start, map[]);
    assert Inv(w);
    RunKeepsInv(w, requests);
    hide RunAll, Until;
    assert KeyInv(RunAll(w, requests), key);
  }

  /** What identifies a lease stays as it was granted, whatever happens later. */
  ghost predicate Extends(before: seq<Span>, after: seq<Span>) {
    && |before| <= |after|
    && forall i :: 0 <= i < |before| ==>
         && after[i].lease.(expiresAt := 0.0) == before[i].lease.(expiresAt := 0.0)
         && (before[i].releasedAt.Some? ==> after[i] == before[i])
  }

  lemma StepExtends(w: World, r: Request, now: real, key: Key)
    requires Inv(w)
    ensures Extends(SpansOf(w, key), SpansOf(Step(w, r, now), key))
  {
    assert KeyInv(w, key);
    hide Inv, Strip, InTurn;
    if key == KeyOfRequest(r) {
      assert SpansOf(Step(w, r, now), key) == NextSpans(w, r, now);
      hide After;
    }
  }

  /** Renewals keep a lease's token, generation, owner, run and time of acquisition, and
      nothing at all changes a released lease. */
  lemma {:induction false} LeasesKeepIdentity(w: World, requests: seq<(Request, real)>, key: Key)
    requires Inv(w) && ClockGoesOn(w, requests)
    ensures Extends(SpansOf(w, key), SpansOf(RunAll(w, requests), key))
  {
    hide Inv, Step, SpansOf;
    if requests != [] {
      var front, last := requests[..|requests| - 1], requests[|requests| - 1];
      LeasesKeepIdentity(w, front, key);
      RunKeepsInv(w, front);
      StepExtends(RunAll(w, front), last.0, last.1, key);
    }
  }

  /** A lease that a later one has superseded changes nothing any more: it is neither
      renewed nor does its release free the run. */
  lemma SupersededLeasesChangeNothing(w: World, lease: Lease, ttl: real, now: real)
    requires Inv(w) && w.now <= now && lease.generation < GenerationOf(w.store, LeaseKey(lease))
    ensures After(w.store, Renew(lease, ttl), now) == w.store && OutcomeOf(w.store, Renew(lease, ttl), now).Refused?
    ensures After(w.store, Release(lease), now) == w.store
  {
    assert KeyInv(w, LeaseKey(lease));
    if LeaseKey(lease) !in w.store.leases {
      assert w.store.leases - {LeaseKey(lease)} == w.store.leases;
    }
  }

  /** A renewal leaves a copy of the lease that outlives the next takeover exactly when
      it moves the expiry forward in time. */
  lemma ShorterRenewalsOverlap(s: Store, lease: Lease, ttl: real, now: real, owner: string, token: string)
    requires LeaseKey(lease) in s.leases && s.leases[LeaseKey(lease)] == lease && lease.expiresAt > now
    requires ttl > 0.0 && Strip(owner) != "" && Strip(lease.runId) == lease.runId && lease.runId != ""
    ensures
      var renewed := After(s, Renew(lease, ttl), now);
      (exists t :: now <= t < lease.expiresAt && OutcomeOf(renewed, Claim(lease.runId, lease.scope, owner, ttl, token), t).Granted?)
      <==> now + ttl < lease.expiresAt
  {
    hide Strip;
    var renewed := After(s, Renew(lease, ttl), now);
    if now + ttl < lease.expiresAt {
      assert OutcomeOf(renewed, Claim(lease.runId, lease.scope, owner, ttl, token), now + ttl).Granted?;
    }
  }

  /** A lease just claimed is seen under the run id it was claimed with exactly when that
      id has no blanks around it. */
  lemma ClaimIsSeen(w: World, runId: string, scope: Scope, owner: string, ttl: real, token: string, now: real)
    requires Inv(w) && w.now <= now
    requires OutcomeOf(w.store, Claim(runId, scope, owner, ttl, token), now).Granted?
    ensures
      var r := Claim(runId, scope, owner, ttl, token);
      Seen(After(w.store, r, now), runId, scope, now) == Some(OutcomeOf(w.store, r, now).lease) <==> Strip(runId) == runId
  {
    StripTwice(runId);
    hide Strip;
    var r := Claim(runId, scope, owner, ttl, token);
    assert Inv(Step(w, r, now)) by { StepKeepsInv(w, r, now); }
    assert KeyInv(Step(w, r, now), KeyOf(scope, runId));
  }

  // ---------------------------------------------------------------- what each request comes to

  /** Where a run is kept: its scope with the defaults for what is blank. */
  function Place(scope: Scope, runId: string): Key {
    Key(scope.tenant, if scope.namespace != "" then scope.namespace else "default",
        if scope.user != "" then scope.user else "local-device", runId)
  }

  /** The run is held: the last lease granted for it is neither released nor expired. */
  predicate HeldAt(spans: seq<Span>, now: real) {
    spans != [] && Until(spans[|spans| - 1]) > now
  }

  lemma HeldIsLive(w: World, key: Key, now: real)
    requires Inv(w) && w.now <= now
    ensures HeldAt(SpansOf(w, key), now) <==> Live(w.store, key, now)
    ensures Live(w.store, key, now) ==> w.store.leases[key] == SpansOf(w, key)[|SpansOf(w, key)| - 1].lease
    ensures GenerationOf(w.store, key) == |SpansOf(w, key)|
  {
    assert KeyInv(w, key);
    hide Inv, Strip, InTurn;
  }

  /** A claim is granted exactly when ids are not blank, the time is positive, and the last
      lease of the run is released or has expired; then it has the next generation and begins
      now. Otherwise the first of these that fails is the error, and names who holds the run. */
  lemma ClaimIsGrantedExactly(w: World, runId: string, scope: Scope, owner: string, ttl: real, token: string, now: real)
    requires Inv(w) && w.now <= now
    ensures
      var r := Claim(runId, scope, owner, ttl, token);
      var key := Place(scope, Strip(runId));
      var spans, lease := SpansOf(w, key), Lease(Strip(runId), Strip(owner), token, now, now + ttl, |SpansOf(w, key)| + 1, scope);
      var granted := Strip(runId) != "" && Strip(owner) != "" && ttl > 0.0 && !HeldAt(spans, now);
      && OutcomeOf(w.store, r, now)
           == (if granted then Granted(lease)
               else Refused(if Strip(runId) == "" then RunIdRequired else if Strip(owner) == "" then OwnerRequired
                            else if ttl <= 0.0 then TtlNotPositive else OwnedByOther(spans[|spans| - 1].lease.owner)))
      && SpansOf(Step(w, r, now), key) == (if granted then spans + [Span(lease, None)] else spans)
      && forall other :: other != key ==> SpansOf(Step(w, r, now), other) == SpansOf(w, other)
  {
    HeldIsLive(w, Place(scope, Strip(runId)), now);
    hide Strip, Inv, Live, HeldAt, GenerationOf, After;
  }

  /** A lease is renewed exactly when the time is positive and it is the one that holds the
      run; then the time runs from now, and nothing else of it changes. */
  lemma RenewalIsGrantedExactly(w: World, lease: Lease, ttl: real, now: real)
    requires Inv(w) && w.now <= now
    ensures
      var key := Place(lease.scope, lease.runId);
      var spans := SpansOf(w, key);
      OutcomeOf(w.store, Renew(lease, ttl), now)
        == if ttl <= 0.0 then Refused(TtlNotPositive)
           else if !HeldAt(spans, now) then Refused(LeaseLost)
           else
             var last := spans[|spans| - 1].lease;
             if last.token == lease.token && last.generation == lease.generation then Granted(last.(expiresAt := now + ttl))
             else Refused(LeaseLost)
  {
    HeldIsLive(w, Place(lease.scope, lease.runId), now);
    hide Inv, HeldAt;
  }

  /** A release is refused exactly when another lease is kept for the run. The release of the
      one that is kept ends it: the run is free from then on, for a claim of the next
      generation. */
  lemma ReleaseFreesTheRun(w: World, lease: Lease, now: real, later: real)
    requires Inv(w) && w.now <= now <= later
    ensures
      var key := Place(lease.scope, lease.runId);
      var spans, next := SpansOf(w, key), Step(w, Release(lease), now);
      var kept := spans != [] && spans[|spans| - 1].releasedAt.None?;
      var own := kept && spans[|spans| - 1].lease.token == lease.token && spans[|spans| - 1].lease.generation == lease.generation;
      && OutcomeOf(w.store, Release(lease), now) == (if kept && !own then Refused(LeaseLost) else Done)
      && (own ==> SpansOf(next, key) == spans[|spans| - 1 := spans[|spans| - 1].(releasedAt := Some(now))]
                  && !HeldAt(SpansOf(next, key), later) && Seen(next.store, lease.runId, lease.scope, later).None?)
      && (!own ==> SpansOf(next, key) == spans && next.store == w.store)
  {
    var key := Place(lease.scope, lease.runId);
    assert KeyInv(w, key);
    hide Inv, Strip, InTurn;
    if key !in w.store.leases {
      assert w.store.leases - {key} == w.store.leases;
    }
  }

  /** A run's lease is seen under an id exactly while it is held under just that id. */
  lemma LeaseIsSeenExactly(w: World, runId: string, scope: Scope, now: real)
    requires Inv(w) && w.now <= now
    ensures
      var spans := SpansOf(w, Place(scope, runId));
      Seen(w.store, runId, scope, now) == if HeldAt(spans, now) then Some(spans[|spans| - 1].lease) else None
  {
    HeldIsLive(w, Place(scope, runId), now);
    hide Inv, HeldAt;
  }
}
