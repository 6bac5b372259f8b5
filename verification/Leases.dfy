/** Run leases with takeover and fencing generations, and the guard that keeps one. */
module Leases {
  import opened Options
  import opened PyText

  datatype Scope = Scope(tenant: string, user: string, namespace: string)

  /** Where a scoped run is kept; blank parts of the scope stand for their defaults. */
  datatype Key = Key(tenant: string, namespace: string, user: string, runId: string)

  datatype Lease = Lease(
    runId: string, owner: string, token: string, acquiredAt: real, expiresAt: real, generation: nat, scope: Scope)

  datatype Store = Store(leases: map<Key, Lease>, generations: map<Key, nat>)

  datatype Error = RunIdRequired | OwnerRequired | TtlNotPositive | OwnedByOther(owner: string) | LeaseLost

  datatype Outcome = Granted(lease: Lease) | Done | Refused(error: Error)

  const NO_LEASES := Store(map[], map[])

  function OrDefault(text: string, standard: string): string {
    if text == "" then standard else text
  }

  function KeyOf(scope: Scope, runId: string): Key {
    Key(scope.tenant, OrDefault(scope.namespace, "default"), OrDefault(scope.user, "local-device"), runId)
  }

  function LeaseKey(lease: Lease): Key {
    KeyOf(lease.scope, lease.runId)
  }

  function GenerationOf(s: Store, key: Key): nat {
    if key in s.generations then s.generations[key] else 0
  }

  datatype Request =
    | Claim(runId: string, scope: Scope, owner: string, ttl: real, token: string)
    | Renew(lease: Lease, ttl: real)
    | Release(lease: Lease)

  predicate Live(s: Store, key: Key, now: real) {
    key in s.leases && s.leases[key].expiresAt > now
  }

  predicate Same(current: Lease, lease: Lease) {
    current.token == lease.token && current.generation == lease.generation
  }

  function OutcomeOf(s: Store, r: Request, now: real): Outcome {
    match r
    case Claim(runId, scope, owner, ttl, token) =>
      var key := KeyOf(scope, Strip(runId));
      if Strip(runId) == "" then Refused(RunIdRequired)
      else if Strip(owner) == "" then Refused(OwnerRequired)
      else if ttl <= 0.0 then Refused(TtlNotPositive)
      else if Live(s, key, now) then Refused(OwnedByOther(s.leases[key].owner))
      else Granted(Lease(Strip(runId), Strip(owner), token, now, now + ttl, GenerationOf(s, key) + 1, scope))
    case Renew(lease, ttl) =>
      var key := LeaseKey(lease);
      if ttl <= 0.0 then Refused(TtlNotPositive)
      else if key !in s.leases || !Same(s.leases[key], lease) || s.leases[key].expiresAt <= now then Refused(LeaseLost)
      else Granted(s.leases[key].(expiresAt := now + ttl))
    case Release(lease) =>
      var key := LeaseKey(lease);
      if key in s.leases && !Same(s.leases[key], lease) then Refused(LeaseLost) else Done
  }

  function After(s: Store, r: Request, now: real): Store {
    match OutcomeOf(s, r, now)
    case Refused(_) => s
    case Granted(lease) =>
      var key := if r.Claim? then KeyOf(lease.scope, lease.runId) else LeaseKey(r.lease);
      Store(s.leases[key := lease], if r.Claim? then s.generations[key := lease.generation] else s.generations)
    case Done =>
      s.(leases := s.leases - {LeaseKey(r.lease)})
  }

  function Seen(s: Store, runId: string, scope: Scope, now: real): Option<Lease> {
    var key := KeyOf(scope, runId);
    if Live(s, key, now) then Some(s.leases[key]) else None
  }

  // ---------------------------------------------------------------- the store

  class LeaseStore {
    var leases: map<Key, Lease>
    var generations: map<Key, nat>

    function View(): Store
      reads this
    {
      Store(leases, generations)
    }

    constructor ()
      ensures View() == NO_LEASES
    {
      leases, generations := map[], map[];
    }

    method ClaimScoped(runId: string, scope: Scope, owner: string, ttl: real, now: real, token: string)
      returns (r: Outcome)
      modifies this
      ensures r == OutcomeOf(old(View()), Claim(runId, scope, owner, ttl, token), now)
      ensures View() == After(old(View()), Claim(runId, scope, owner, ttl, token), now)
    {
      hide Strip;
      var normalizedRunId := Strip(runId);
      var normalizedOwner := Strip(owner);
      if normalizedRunId == "" {
        return Refused(RunIdRequired);
      }
      if normalizedOwner == "" {
        return Refused(OwnerRequired);
      }
      if ttl <= 0.0 {
        return Refused(TtlNotPositive);
      }
      var key := KeyOf(scope, normalizedRunId);
      if key in leases && leases[key].expiresAt > now {
        return Refused(OwnedByOther(leases[key].owner));
      }
      var generation := (if key in generations then generations[key] else 0) + 1;
      var lease := Lease(normalizedRunId, normalizedOwner, token, now, now + ttl, generation, scope);
      leases := leases[key := lease];
      generations := generations[key := generation];
      r := Granted(lease);
    }

    method RenewLease(lease: Lease, ttl: real, now: real) returns (r: Outcome)
      modifies this
      ensures r == OutcomeOf(old(View()), Renew(lease, ttl), now)
      ensures View() == After(old(View()), Renew(lease, ttl), now)
    {
      if ttl <= 0.0 {
        return Refused(TtlNotPositive);
      }
      var key := LeaseKey(lease);
      if key !in leases {
        return Refused(LeaseLost);
      }
      var current := leases[key];
      if current.token != lease.token || current.generation != lease.generation || current.expiresAt <= now {
        return Refused(LeaseLost);
      }
      var renewed := Lease(
        current.runId, current.owner, current.token, current.acquiredAt, now + ttl, current.generation, current.scope);
      leases := leases[key := renewed];
      r := Granted(renewed);
    }

    method ReleaseLease(lease: Lease, ghost now: real) returns (r: Outcome)
      modifies this
      ensures r == OutcomeOf(old(View()), Release(lease), now)
      ensures View() == After(old(View()), Release(lease), now)
    {
      var key := LeaseKey(lease);
      if key !in leases {
        assert leases == leases - {key};
        return Done;
      }
      var current := leases[key];
      if current.token != lease.token || current.generation != lease.generation {
        return Refused(LeaseLost);
      }
      leases := leases - {key};
      r := Done;
    }

    method InspectScoped(runId: string, scope: Scope, now: real) returns (seen: Option<Lease>)
      ensures seen == Seen(View(), runId, scope, now)
    {
      var key := KeyOf(scope, runId);
      if key !in leases || leases[key].expiresAt <= now {
        return None;
      }
      seen := Some(leases[key]);
    }
  }

  // ---------------------------------------------------------------- the guard

  /** One worker's hold on a run: it claims a lease, renews it at every heartbeat, and
      remembers once it has lost it. */
  class LeaseGuard {
    const store: LeaseStore
    const runId: string
    const owner: string
    const ttl: real
    const scope: Scope
    var lease: Option<Lease>
    var lost: bool

    constructor (store: LeaseStore, runId: string, owner: string, ttl: real, scope: Scope)
      ensures this.store == store && this.runId == runId && this.owner == owner && this.ttl == ttl && this.scope == scope
      ensures lease.None? && !lost
    {
      this.store, this.runId, this.owner, this.ttl, this.scope := store, runId, owner, ttl, scope;
      lease, lost := None, false;
    }

    method Enter(now: real, token: string) returns (r: Outcome)
      modifies this`lease, store
      ensures r == OutcomeOf(old(store.View()), Claim(runId, scope, owner, ttl, token), now)
      ensures store.View() == After(old(store.View()), Claim(runId, scope, owner, ttl, token), now)
      ensures lease == if r.Granted? then Some(r.lease) else old(lease)
    {
      hide OutcomeOf, After;
      r := store.ClaimScoped(runId, scope, owner, ttl, now, token);
      if r.Granted? {
        lease := Some(r.lease);
      }
    }

    /** A renewal keeps the token and the generation; a refusal is remembered for good. */
    method Heartbeat(now: real)
      modifies this`lease, this`lost, store
      ensures old(lost) || old(lease).None? ==>
        lease == old(lease) && lost == old(lost) && store.View() == old(store.View())
      ensures !old(lost) && old(lease).Some? ==>
        && store.View() == After(old(store.View()), Renew(old(lease).value, ttl), now)
        && var outcome := OutcomeOf(old(store.View()), Renew(old(lease).value, ttl), now);
           lost == !outcome.Granted? && lease == if outcome.Granted? then Some(outcome.lease) else old(lease)
      ensures old(lost) ==> lost
      ensures lease.Some? <==> old(lease).Some?
      ensures lease.Some? ==> Same(lease.value, old(lease).value)
    {
      if lost || lease.None? {
        return;
      }
      var r := store.RenewLease(lease.value, ttl, now);
      if r.Granted? {
        lease := Some(r.lease);
      } else {
        lost := true;
      }
    }

    method Exit(ghost now: real)
      modifies store
      ensures store.View() == if lease.Some? then After(old(store.View()), Release(lease.value), now) else old(store.View())
    {
      hide OutcomeOf, After;
      if lease.Some? {
        var r := store.ReleaseLease(lease.value, now);
      }
    }
  }
}
