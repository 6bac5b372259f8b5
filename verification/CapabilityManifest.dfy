/** Declarative package manifests, and what makes a set of them fit together. */
module CapabilityManifest {
  import opened Sorting

  /** Package ids have at least one character. */
  type PackageId = s: string | s != "" witness "p"

  datatype Kind =
    | Skills | Tools | ArtifactTypes | Subagents | Handoffs | Hooks | ContextContributors | AgentEntrypoints | Resources

  const KINDS := [Skills, Tools, ArtifactTypes, Subagents, Handoffs, Hooks, ContextContributors, AgentEntrypoints, Resources]

  datatype Dependency = Dependency(id: string, range: string)

  datatype Manifest = Manifest(
    id: PackageId, version: string, dependencies: seq<Dependency>,
    skills: seq<string>, tools: seq<string>, artifactTypes: seq<string>, subagents: seq<string>,
    handoffs: seq<string>, hooks: seq<string>, contextContributors: seq<string>,
    agentEntrypoints: seq<string>, resources: seq<string>,
    content: string)

  /** Whether a version satisfies a constraint. */
  type Satisfies = (string, string) -> bool

  function IdOf(m: Manifest): string {
    m.id
  }

  function Declared(m: Manifest, kind: Kind): seq<string> {
    match kind
    case Skills => m.skills
    case Tools => m.tools
    case ArtifactTypes => m.artifactTypes
    case Subagents => m.subagents
    case Handoffs => m.handoffs
    case Hooks => m.hooks
    case ContextContributors => m.contextContributors
    case AgentEntrypoints => m.agentEntrypoints
    case Resources => m.resources
  }

  datatype Capability = Capability(kind: Kind, name: string)

  predicate Declares(m: Manifest, c: Capability) {
    c.name in Declared(m, c.kind)
  }

  datatype Issue =
    | DuplicateId(id: string)
    | DeclaredTwice(capability: Capability, first: string, second: string)
    | MissingPackage(id: string, needed: string)
    | WrongVersion(id: string, needed: string, installed: string)
    | UnknownHandoffs(id: string, names: set<string>)

  // ---------------------------------------------------------------- what a valid set is

  /** No capability belongs to two packages. */
  ghost predicate SingleOwner(ms: seq<Manifest>) {
    forall i, j, c :: 0 <= i < |ms| && 0 <= j < |ms| && Declares(ms[i], c) && Declares(ms[j], c) ==> ms[i].id == ms[j].id
  }

  ghost predicate Provides(satisfies: Satisfies, ms: seq<Manifest>, d: Dependency) {
    exists o :: o in ms && o.id == d.id && satisfies(o.version, d.range)
  }

  ghost predicate Fits(satisfies: Satisfies, ms: seq<Manifest>, m: Manifest) {
    && (forall d :: d in m.dependencies ==> Provides(satisfies, ms, d))
    && (forall name :: name in m.handoffs ==> name in m.tools)
  }

  ghost predicate ValidSet(satisfies: Satisfies, ms: seq<Manifest>) {
    && DistinctBy(IdOf, ms)
    && SingleOwner(ms)
    && forall m :: m in ms ==> Fits(satisfies, ms, m)
  }

  /** What an issue reports is so. */
  ghost predicate Holds(satisfies: Satisfies, ms: seq<Manifest>, issue: Issue) {
    match issue
    case DuplicateId(id) => exists i, j :: 0 <= i < j < |ms| && ms[i].id == ms[j].id == id
    case DeclaredTwice(c, first, second) =>
      first != second
      && (exists m :: m in ms && m.id == first && Declares(m, c)) && (exists m :: m in ms && m.id == second && Declares(m, c))
    case MissingPackage(id, needed) =>
      (exists m :: m in ms && m.id == id && RequiresId(m, needed)) && (forall m :: m in ms ==> m.id != needed)
    case WrongVersion(id, needed, installed) =>
      && (exists m, d :: m in ms && m.id == id && d in m.dependencies && d.id == needed && !satisfies(installed, d.range))
      && (exists m :: m in ms && m.id == needed && m.version == installed)
    case UnknownHandoffs(id, names) =>
      names != {} && exists m :: m in ms && m.id == id && (forall n :: n in names ==> n in m.handoffs && n !in m.tools)
  }

  predicate RequiresId(m: Manifest, id: string) {
    exists d :: d in m.dependencies && d.id == id
  }

  // ---------------------------------------------------------------- validation

  /** All capabilities of a manifest, kind by kind. */
  function Claims(m: Manifest, kinds: seq<Kind>): seq<Capability> {
    if kinds == [] then []
    else
      var names := Declared(m, kinds[0]);
      seq(|names|, i requires 0 <= i < |names| => Capability(kinds[0], names[i])) + Claims(m, kinds[1..])
  }

  lemma {:induction false} ClaimsAreDeclared(m: Manifest, kinds: seq<Kind>, c: Capability)
    ensures c in Claims(m, kinds) <==> c.kind in kinds && Declares(m, c)
  {
    if kinds != [] {
      var names := Declared(m, kinds[0]);
      var own := seq(|names|, i requires 0 <= i < |names| => Capability(kinds[0], names[i]));
      ClaimsAreDeclared(m, kinds[1..], c);
      if c.kind == kinds[0] && Declares(m, c) {
        var i :| 0 <= i < |names| && names[i] == c.name;
        assert own[i] == c;
      }
    }
  }

  lemma AllKinds(kind: Kind)
    ensures kind in KINDS
  {
    assert KINDS[0] == Skills && KINDS[1] == Tools && KINDS[2] == ArtifactTypes && KINDS[3] == Subagents;
    assert KINDS[4] == Handoffs && KINDS[5] == Hooks && KINDS[6] == ContextContributors;
    assert KINDS[7] == AgentEntrypoints && KINDS[8] == Resources;
  }

  lemma AllClaims(m: Manifest)
    ensures forall c: Capability :: c in Claims(m, KINDS) <==> Declares(m, c)
  {
    hide Declares;
    forall c: Capability
      ensures c in Claims(m, KINDS) <==> Declares(m, c)
    {
      AllKinds(c.kind);
      ClaimsAreDeclared(m, KINDS, c);
    }
  }

  method ClaimCapabilities(m: Manifest, ownership: map<Capability, string>)
    returns (claimed: map<Capability, string>, issues: seq<Issue>)
    ensures forall c :: c in claimed <==> c in ownership || Declares(m, c)
    ensures forall c :: c in claimed ==> claimed[c] == if Declares(m, c) then m.id else ownership[c]
    ensures issues == [] <==> forall c :: c in ownership && Declares(m, c) ==> ownership[c] == m.id
    ensures forall issue :: issue in issues ==>
      && issue.DeclaredTwice? && issue.second == m.id && Declares(m, issue.capability)
      && issue.capability in ownership && issue.first == ownership[issue.capability] != m.id
    ensures forall c :: c in ownership && Declares(m, c) && ownership[c] != m.id ==> DeclaredTwice(c, ownership[c], m.id) in issues
  {
    hide Claims, Declares;
    AllClaims(m);
    var claims := Claims(m, KINDS);
    claimed, issues := ownership, [];
    for i := 0 to |claims|
      invariant forall c :: c in claimed <==> c in ownership || c in claims[..i]
      invariant forall c :: c in claimed ==> claimed[c] == if c in claims[..i] then m.id else ownership[c]
      invariant issues == [] <==> forall c :: c in ownership && c in claims[..i] ==> ownership[c] == m.id
      invariant forall issue :: issue in issues ==>
        && issue.DeclaredTwice? && issue.second == m.id && issue.capability in claims
        && issue.capability in ownership && issue.first == ownership[issue.capability] != m.id
      invariant forall c :: c in ownership && c in claims[..i] && ownership[c] != m.id ==>
        DeclaredTwice(c, ownership[c], m.id) in issues
    {
      var c := claims[i];
      assert claims[..i + 1] == claims[..i] + [c];
      if c in claimed && claimed[c] != m.id {
        issues := issues + [DeclaredTwice(c, claimed[c], m.id)];
      }
      claimed := claimed[c := m.id];
    }
    assert claims[..|claims|] == claims;
  }

  /** The manifest registered last under each id. */
  ghost predicate Registered(ms: seq<Manifest>, byId: map<string, Manifest>) {
    && (forall id :: id in byId ==> byId[id] in ms && byId[id].id == id)
    && (forall m :: m in ms ==> m.id in byId)
  }

  ghost predicate Resolves(satisfies: Satisfies, byId: map<string, Manifest>, d: Dependency) {
    d.id in byId && satisfies(byId[d.id].version, d.range)
  }

  /** A dependency that is missing, or there in a version that does not fit, is reported. */
  ghost predicate NeedReported(satisfies: Satisfies, m: Manifest, d: Dependency, byId: map<string, Manifest>, issues: seq<Issue>) {
    if d.id !in byId then MissingPackage(m.id, d.id) in issues
    else !satisfies(byId[d.id].version, d.range) ==> WrongVersion(m.id, d.id, byId[d.id].version) in issues
  }

  /** So are all of a manifest's, and its handoffs that are no tools of its own, together. */
  ghost predicate NeedsReported(satisfies: Satisfies, m: Manifest, byId: map<string, Manifest>, issues: seq<Issue>) {
    && (forall d :: d in m.dependencies ==> NeedReported(satisfies, m, d, byId, issues))
    && var unknown := (set name | name in m.handoffs) - (set name | name in m.tools);
       unknown != {} ==> UnknownHandoffs(m.id, unknown) in issues
  }

  method CheckManifest(satisfies: Satisfies, m: Manifest, ghost ms: seq<Manifest>, byId: map<string, Manifest>)
    returns (issues: seq<Issue>)
    requires Registered(ms, byId) && m in ms
    ensures issues == [] <==> Accepted(satisfies, m, byId)
    ensures forall issue :: issue in issues ==> Holds(satisfies, ms, issue)
    ensures NeedsReported(satisfies, m, byId, issues)
  {
    issues := [];
    for i := 0 to |m.dependencies|
      invariant issues == [] <==> forall d :: d in m.dependencies[..i] ==> Resolves(satisfies, byId, d)
      invariant forall issue :: issue in issues ==> Holds(satisfies, ms, issue)
      invariant forall d :: d in m.dependencies[..i] ==> NeedReported(satisfies, m, d, byId, issues)
    {
      var d := m.dependencies[i];
      assert m.dependencies[..i + 1] == m.dependencies[..i] + [d];
      assert d in m.dependencies[..i + 1];
      if d.id !in byId {
        assert RequiresId(m, d.id);
        issues := issues + [MissingPackage(m.id, d.id)];
      } else if !satisfies(byId[d.id].version, d.range) {
        issues := issues + [WrongVersion(m.id, d.id, byId[d.id].version)];
      }
    }
    assert m.dependencies[..|m.dependencies|] == m.dependencies;
    var unknown := (set name | name in m.handoffs) - (set name | name in m.tools);
    if unknown != {} {
      var name :| name in unknown;
      assert name in m.handoffs && name !in m.tools;
      issues := issues + [UnknownHandoffs(m.id, unknown)];
    } else {
      forall name | name in m.handoffs
        ensures name in m.tools
      {
        assert name !in unknown;
      }
    }
  }

  /** Owners on record after some manifests. */
  ghost predicate Owners(ms: seq<Manifest>, ownership: map<Capability, string>) {
    && (forall m, c :: m in ms && Declares(m, c) ==> c in ownership)
    && (forall c :: c in ownership ==> exists m :: m in ms && m.id == ownership[c] && Declares(m, c))
  }

  lemma DistinctGrows(ms: seq<Manifest>, m: Manifest)
    ensures DistinctBy(IdOf, ms + [m]) <==> DistinctBy(IdOf, ms) && forall o :: o in ms ==> o.id != m.id
  {
    var all := ms + [m];
    if DistinctBy(IdOf, all) {
      forall o | o in ms
        ensures o.id != m.id
      {
        var i :| 0 <= i < |ms| && ms[i] == o;
        assert IdOf(all[i]) != IdOf(all[|ms|]);
      }
      forall i, j | 0 <= i < j < |ms|
        ensures IdOf(ms[i]) != IdOf(ms[j])
      {
        assert IdOf(all[i]) != IdOf(all[j]);
      }
    }
  }

  lemma OwnerGrows(ms: seq<Manifest>, m: Manifest, ownership: map<Capability, string>)
    requires Owners(ms, ownership)
    ensures SingleOwner(ms + [m]) <==>
      SingleOwner(ms) && forall c :: c in ownership && Declares(m, c) ==> ownership[c] == m.id
  {
    hide Declares;
    var all := ms + [m];
    if SingleOwner(all) {
      forall i, j, c | 0 <= i < |ms| && 0 <= j < |ms| && Declares(ms[i], c) && Declares(ms[j], c)
        ensures ms[i].id == ms[j].id
      {
        assert all[i] == ms[i] && all[j] == ms[j];
      }
      forall c | c in ownership && Declares(m, c)
        ensures ownership[c] == m.id
      {
        var o :| o in ms && o.id == ownership[c] && Declares(o, c);
        var i :| 0 <= i < |ms| && ms[i] == o;
        assert all[i] == o && all[|ms|] == m;
      }
    }
    if SingleOwner(ms) && forall c :: c in ownership && Declares(m, c) ==> ownership[c] == m.id {
      forall i, c | 0 <= i < |ms| && Declares(ms[i], c) && Declares(m, c)
        ensures ms[i].id == m.id
      {
        assert ms[i] in ms;
        var o :| o in ms && o.id == ownership[c] && Declares(o, c);
        var k :| 0 <= k < |ms| && ms[k] == o;
      }
    }
  }

  lemma OwnersGrow(
      ms: seq<Manifest>, m: Manifest, ownership: map<Capability, string>, claimed: map<Capability, string>)
    requires Owners(ms, ownership)
    requires forall c :: c in claimed <==> c in ownership || Declares(m, c)
    requires forall c :: c in claimed ==> claimed[c] == if Declares(m, c) then m.id else ownership[c]
    ensures Owners(ms + [m], claimed)
  {
    hide Declares;
    forall c | c in claimed
      ensures exists o :: o in ms + [m] && o.id == claimed[c] && Declares(o, c)
    {
      if Declares(m, c) {
        assert m in ms + [m];
      } else {
        var o :| o in ms && o.id == ownership[c] && Declares(o, c);
        assert o in ms + [m];
      }
    }
  }

  lemma HoldsGrows(satisfies: Satisfies, ms: seq<Manifest>, m: Manifest, issue: Issue)
    requires (issue.DuplicateId? || issue.DeclaredTwice?) && Holds(satisfies, ms, issue)
    ensures Holds(satisfies, ms + [m], issue)
  {
    hide Declares;
    match issue
    case DuplicateId(id) =>
      var i, j :| 0 <= i < j < |ms| && ms[i].id == ms[j].id == id;
      assert (ms + [m])[i] == ms[i] && (ms + [m])[j] == ms[j];
    case DeclaredTwice(c, first, second) =>
      var a :| a in ms && a.id == first && Declares(a, c);
      var b :| b in ms && b.id == second && Declares(b, c);
      assert a in ms + [m] && b in ms + [m];
  }

  lemma ClashHolds(satisfies: Satisfies, ms: seq<Manifest>, m: Manifest, ownership: map<Capability, string>, issue: Issue)
    requires Owners(ms, ownership)
    requires issue.DeclaredTwice? && issue.second == m.id && Declares(m, issue.capability)
    requires issue.capability in ownership && issue.first == ownership[issue.capability] != m.id
    ensures Holds(satisfies, ms + [m], issue)
  {
    hide Declares;
    var o :| o in ms && o.id == ownership[issue.capability] && Declares(o, issue.capability);
    assert o in ms + [m] && m in ms + [m];
  }

  lemma DuplicateHolds(satisfies: Satisfies, ms: seq<Manifest>, m: Manifest, o: Manifest)
    requires o in ms && o.id == m.id
    ensures Holds(satisfies, ms + [m], DuplicateId(m.id))
  {
    var i :| 0 <= i < |ms| && ms[i] == o;
    assert (ms + [m])[i] == o && (ms + [m])[|ms|] == m;
  }

  method RegisterManifests(ghost satisfies: Satisfies, ms: seq<Manifest>)
    returns (byId: map<string, Manifest>, issues: seq<Issue>)
    ensures Registered(ms, byId)
    ensures Latest(ms, byId)
    ensures issues == [] <==> DistinctBy(IdOf, ms) && SingleOwner(ms)
    ensures forall issue :: issue in issues ==> Holds(satisfies, ms, issue)
    ensures ClashesReported(ms, issues)
  {
    byId, issues := map[], [];
    var ownership: map<Capability, string> := map[];
    hide Declares, Holds, Owners, SingleOwner, DistinctBy, ClashesReported, Latest;
    NothingRegistered();
    for i := 0 to |ms|
      invariant Registered(ms[..i], byId) && Latest(ms[..i], byId)
      invariant Owners(ms[..i], ownership) && ClashesReported(ms[..i], issues)
      invariant issues == [] <==> DistinctBy(IdOf, ms[..i]) && SingleOwner(ms[..i])
      invariant forall issue :: issue in issues ==>
        (issue.DuplicateId? || issue.DeclaredTwice?) && Holds(satisfies, ms[..i], issue)
    {
      var m := ms[i];
      ghost var past := ms[..i];
      assert ms[..i + 1] == past + [m];
      DistinctGrows(past, m);
      OwnerGrows(past, m, ownership);
      forall issue | issue in issues
        ensures Holds(satisfies, past + [m], issue)
      {
        HoldsGrows(satisfies, past, m, issue);
      }
      ghost var reported := issues;
      if m.id in byId {
        DuplicateHolds(satisfies, past, m, byId[m.id]);
        issues := issues + [DuplicateId(m.id)];
      }
      LatestGrows(past, m, byId);
      byId := byId[m.id := m];
      var claimed, clashes := ClaimCapabilities(m, ownership);
      OwnersGrow(past, m, ownership, claimed);
      forall issue | issue in clashes
        ensures Holds(satisfies, past + [m], issue)
      {
        ClashHolds(satisfies, past, m, ownership, issue);
      }
      ReportsGrow(past, m, ownership, reported, issues + clashes);
      ownership, issues := claimed, issues + clashes;
    }
    assert ms[..|ms|] == ms;
  }

  lemma NothingRegistered()
    ensures Owners([], map[]) && SingleOwner([]) && DistinctBy(IdOf, [])
    ensures ClashesReported([], []) && Latest([], map[])
  {
  }

  /** Under each id the manifest that comes last. */
  ghost predicate Latest(ms: seq<Manifest>, byId: map<string, Manifest>) {
    forall i :: 0 <= i < |ms| && (forall j :: i < j < |ms| ==> ms[j].id != ms[i].id) ==> ms[i].id in byId && byId[ms[i].id] == ms[i]
  }

  lemma LatestGrows(ms: seq<Manifest>, m: Manifest, byId: map<string, Manifest>)
    requires Latest(ms, byId)
    ensures Latest(ms + [m], byId[m.id := m])
  {
    var all := ms + [m];
    forall i | 0 <= i < |all| && (forall j :: i < j < |all| ==> all[j].id != all[i].id)
      ensures all[i].id in byId[m.id := m] && byId[m.id := m][all[i].id] == all[i]
    {
      if i < |ms| {
        assert all[|ms|].id != all[i].id;
        assert forall j :: i < j < |ms| ==> all[j] == ms[j];
      }
    }
  }

  /** Every id that comes twice, and every capability declared by packages of different ids. */
  ghost predicate ClashesReported(ms: seq<Manifest>, issues: seq<Issue>) {
    && (forall i, j :: 0 <= i < j < |ms| && ms[i].id == ms[j].id ==> DuplicateId(ms[i].id) in issues)
    && (forall i, j, c :: 0 <= i < |ms| && 0 <= j < |ms| && Declares(ms[i], c) && Declares(ms[j], c) && ms[i].id != ms[j].id ==>
          ReportedTwice(issues, c))
  }

  ghost predicate ReportedTwice(issues: seq<Issue>, c: Capability) {
    exists issue :: issue in issues && issue.DeclaredTwice? && issue.capability == c
  }

  lemma ReportsGrow(ms: seq<Manifest>, m: Manifest, ownership: map<Capability, string>, before: seq<Issue>, after: seq<Issue>)
    requires Owners(ms, ownership) && ClashesReported(ms, before) && forall issue :: issue in before ==> issue in after
    requires (exists o :: o in ms && o.id == m.id) ==> DuplicateId(m.id) in after
    requires forall c :: c in ownership && Declares(m, c) && ownership[c] != m.id ==> DeclaredTwice(c, ownership[c], m.id) in after
    ensures ClashesReported(ms + [m], after)
  {
    hide Declares;
    var all := ms + [m];
    forall i, j | 0 <= i < j < |all| && all[i].id == all[j].id
      ensures DuplicateId(all[i].id) in after
    {
      if j == |ms| {
        assert ms[i] in ms;
      } else {
        assert ms[i].id == ms[j].id;
      }
    }
    forall i, j, c | 0 <= i < |all| && 0 <= j < |all| && Declares(all[i], c) && Declares(all[j], c) && all[i].id != all[j].id
      ensures ReportedTwice(after, c)
    {
      if i < |ms| && j < |ms| {
        assert ReportedTwice(before, c);
      } else {
        ClashReported(ms, if i < |ms| then i else j, m, ownership, before, after, c);
      }
    }
  }

  lemma ClashReported(
      ms: seq<Manifest>, i: nat, m: Manifest, ownership: map<Capability, string>, before: seq<Issue>, after: seq<Issue>, c: Capability)
    requires Owners(ms, ownership) && ClashesReported(ms, before) && forall issue :: issue in before ==> issue in after
    requires forall c :: c in ownership && Declares(m, c) && ownership[c] != m.id ==> DeclaredTwice(c, ownership[c], m.id) in after
    requires i < |ms| && Declares(ms[i], c) && Declares(m, c) && ms[i].id != m.id
    ensures ReportedTwice(after, c)
  {
    hide Declares;
    assert ms[i] in ms && c in ownership;
    if ownership[c] == m.id {
      var o :| o in ms && o.id == ownership[c] && Declares(o, c);
      var k :| 0 <= k < |ms| && ms[k] == o;
      assert ReportedTwice(before, c);
    }
  }

  /** Every reason why a set is not valid is reported: ids that come twice, capabilities of
      two packages, and what each manifest needs of the package that comes last under an id. */
  ghost predicate AllReported(satisfies: Satisfies, ms: seq<Manifest>, issues: seq<Issue>) {
    && ClashesReported(ms, issues)
    && exists byId: map<string, Manifest> ::
         && Registered(ms, byId) && Latest(ms, byId)
         && forall m :: m in ms ==> NeedsReported(satisfies, m, byId, issues)
  }

  lemma MoreReported(satisfies: Satisfies, ms: seq<Manifest>, m: Manifest, byId: map<string, Manifest>, a: seq<Issue>, b: seq<Issue>)
    ensures ClashesReported(ms, a) ==> ClashesReported(ms, a + b)
    ensures NeedsReported(satisfies, m, byId, a) ==> NeedsReported(satisfies, m, byId, a + b)
    ensures NeedsReported(satisfies, m, byId, b) ==> NeedsReported(satisfies, m, byId, a + b)
  {
    hide Declares;
    if ClashesReported(ms, a) {
      forall i, j, c | 0 <= i < |ms| && 0 <= j < |ms| && Declares(ms[i], c) && Declares(ms[j], c) && ms[i].id != ms[j].id
        ensures ReportedTwice(a + b, c)
      {
        assert ReportedTwice(a, c);
      }
    }
  }

  method ValidateManifestSet(satisfies: Satisfies, ms: seq<Manifest>) returns (issues: seq<Issue>)
    ensures issues == [] <==> ValidSet(satisfies, ms)
    ensures forall issue :: issue in issues ==> Holds(satisfies, ms, issue)
    ensures AllReported(satisfies, ms, issues)
  {
    var byId;
    byId, issues := RegisterManifests(satisfies, ms);
    ghost var first := issues;
    hide SingleOwner, Holds, ClashesReported, Latest, DistinctBy, Checked, NeedsReported, Accepted;
    NoneChecked(satisfies, ms, byId, issues);
    for i := 0 to |ms|
      invariant Checked(satisfies, ms, byId, first == [], i, issues)
    {
      var more := CheckManifest(satisfies, ms[i], ms, byId);
      OneMoreChecked(satisfies, ms, byId, first == [], i, issues, more);
      issues := issues + more;
    }
    AllAreChecked(satisfies, ms, byId, first == [], issues);
  }

  /** What the first manifests checked have added to the issues. */
  ghost predicate Checked(
      satisfies: Satisfies, ms: seq<Manifest>, byId: map<string, Manifest>, clean: bool, n: nat, issues: seq<Issue>)
    requires n <= |ms|
  {
    && ClashesReported(ms, issues) && (forall k :: 0 <= k < n ==> NeedsReported(satisfies, ms[k], byId, issues))
    && (issues == [] <==> clean && forall k :: 0 <= k < n ==> Accepted(satisfies, ms[k], byId))
    && forall issue :: issue in issues ==> Holds(satisfies, ms, issue)
  }

  lemma NoneChecked(satisfies: Satisfies, ms: seq<Manifest>, byId: map<string, Manifest>, issues: seq<Issue>)
    requires ClashesReported(ms, issues) && forall issue :: issue in issues ==> Holds(satisfies, ms, issue)
    ensures Checked(satisfies, ms, byId, issues == [], 0, issues)
  {
    hide ClashesReported, Holds;
  }

  lemma OneMoreChecked(
      satisfies: Satisfies, ms: seq<Manifest>, byId: map<string, Manifest>, clean: bool, n: nat, issues: seq<Issue>, more: seq<Issue>)
    requires n < |ms| && Checked(satisfies, ms, byId, clean, n, issues)
    requires (more == [] <==> Accepted(satisfies, ms[n], byId)) && NeedsReported(satisfies, ms[n], byId, more)
    requires forall issue :: issue in more ==> Holds(satisfies, ms, issue)
    ensures Checked(satisfies, ms, byId, clean, n + 1, issues + more)
  {
    hide ClashesReported, NeedsReported, Holds, Accepted;
    forall k | 0 <= k <= n
      ensures ClashesReported(ms, issues + more) && NeedsReported(satisfies, ms[k], byId, issues + more)
    {
      MoreReported(satisfies, ms, ms[k], byId, issues, more);
    }
  }

  lemma AllAreChecked(satisfies: Satisfies, ms: seq<Manifest>, byId: map<string, Manifest>, clean: bool, issues: seq<Issue>)
    requires Registered(ms, byId) && Latest(ms, byId) && (clean <==> DistinctBy(IdOf, ms) && SingleOwner(ms))
    requires Checked(satisfies, ms, byId, clean, |ms|, issues)
    ensures issues == [] <==> ValidSet(satisfies, ms)
    ensures forall issue :: issue in issues ==> Holds(satisfies, ms, issue)
    ensures AllReported(satisfies, ms, issues)
  {
    hide SingleOwner, Holds, ClashesReported, Latest, DistinctBy, NeedsReported, Accepted, ValidSet;
    AllAreReported(satisfies, ms, byId, issues);
    AllAccepted(satisfies, ms, byId, clean);
  }

  lemma AllAreReported(satisfies: Satisfies, ms: seq<Manifest>, byId: map<string, Manifest>, issues: seq<Issue>)
    requires Registered(ms, byId) && Latest(ms, byId) && ClashesReported(ms, issues)
    requires forall k :: 0 <= k < |ms| ==> NeedsReported(satisfies, ms[k], byId, issues)
    ensures AllReported(satisfies, ms, issues)
  {
    hide Registered, Latest, ClashesReported, NeedsReported;
  }

  lemma AllAccepted(satisfies: Satisfies, ms: seq<Manifest>, byId: map<string, Manifest>, clean: bool)
    requires Registered(ms, byId) && (clean <==> DistinctBy(IdOf, ms) && SingleOwner(ms))
    ensures (clean && forall k :: 0 <= k < |ms| ==> Accepted(satisfies, ms[k], byId)) <==> ValidSet(satisfies, ms)
  {
    hide SingleOwner, DistinctBy, Accepted, Fits;
    if clean {
      forall k | 0 <= k < |ms|
        ensures Accepted(satisfies, ms[k], byId) <==> Fits(satisfies, ms, ms[k])
      {
        AcceptedFits(satisfies, ms, ms[k], byId);
      }
    }
  }

  ghost predicate Accepted(satisfies: Satisfies, m: Manifest, byId: map<string, Manifest>) {
    && (forall d :: d in m.dependencies ==> Resolves(satisfies, byId, d))
    && (forall name :: name in m.handoffs ==> name in m.tools)
  }

  lemma AcceptedFits(satisfies: Satisfies, ms: seq<Manifest>, m: Manifest, byId: map<string, Manifest>)
    requires Registered(ms, byId) && DistinctBy(IdOf, ms)
    ensures Accepted(satisfies, m, byId) <==> Fits(satisfies, ms, m)
  {
    forall d | d in m.dependencies
      ensures Resolves(satisfies, byId, d) <==> Provides(satisfies, ms, d)
    {
      if Provides(satisfies, ms, d) {
        var o :| o in ms && o.id == d.id && satisfies(o.version, d.range);
        SameIdSameManifest(ms, o, byId[d.id]);
      }
    }
  }

  lemma SameIdSameManifest(ms: seq<Manifest>, a: Manifest, b: Manifest)
    requires DistinctBy(IdOf, ms) && a in ms && b in ms && a.id == b.id
    ensures a == b
  {
    var i :| 0 <= i < |ms| && ms[i] == a;
    var j :| 0 <= j < |ms| && ms[j] == b;
    assert IdOf(ms[i]) == IdOf(ms[j]);
  }

  // ---------------------------------------------------------------- parts of a valid set

  /** Some manifests of a set, each at most once, with every package they require. */
  ghost predicate ClosedPart(part: seq<Manifest>, whole: seq<Manifest>) {
    && DistinctBy(IdOf, part)
    && (forall m :: m in part ==> m in whole)
    && (forall m, d :: m in part && d in m.dependencies ==> exists o :: o in part && o.id == d.id)
  }

  /** Validity survives restriction to a part that contains all it requires. */
  lemma ClosedPartIsValid(satisfies: Satisfies, part: seq<Manifest>, whole: seq<Manifest>)
    requires ValidSet(satisfies, whole) && ClosedPart(part, whole)
    ensures ValidSet(satisfies, part)
  {
    forall m, d | m in part && d in m.dependencies
      ensures Provides(satisfies, part, d)
    {
      var inside :| inside in part && inside.id == d.id;
      assert Fits(satisfies, whole, m) && Provides(satisfies, whole, d);
      var outside :| outside in whole && outside.id == d.id && satisfies(outside.version, d.range);
      SameIdSameManifest(whole, inside, outside);
    }
    forall i, j, c | 0 <= i < |part| && 0 <= j < |part| && Declares(part[i], c) && Declares(part[j], c)
      ensures part[i].id == part[j].id
    {
      assert part[i] in whole && part[j] in whole;
      var p :| 0 <= p < |whole| && whole[p] == part[i];
      var q :| 0 <= q < |whole| && whole[q] == part[j];
    }
    forall m | m in part
      ensures Fits(satisfies, part, m)
    {
      assert Fits(satisfies, whole, m);
    }
  }

  /** Validity does not depend on the order of the set. */
  lemma ValidSetIsOrderless(satisfies: Satisfies, a: seq<Manifest>, b: seq<Manifest>)
    requires multiset(a) == multiset(b) && ValidSet(satisfies, a)
    ensures ValidSet(satisfies, b)
  {
    SameElements(a, b);
    DistinctIsOrderless(IdOf, a, b);
    forall m, d | m in b && d in m.dependencies
      ensures exists o :: o in b && o.id == d.id
    {
      assert Fits(satisfies, a, m) && Provides(satisfies, a, d);
    }
    ClosedPartIsValid(satisfies, b, a);
  }
}
