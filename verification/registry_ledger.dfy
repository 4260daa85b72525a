/**
 What every run of the registry keeps, with no hypothesis on time: version contiguity, dependency
 closure, exactly-once publication, usage conservation within the quota, and the shape of the
 intents and their upload rows.
 */
module RegistryLedger {
  import opened Options
  import opened RegistryTables
  import opened RegistryRuns

  // ---------------------------------------------------------------- facts about the tables

  predicate HasPredecessor(versions: map<Coordinate, Version>, c: Coordinate) {
    c.version == 1 || (1 < c.version && c.(version := c.version - 1) in versions)
  }

  ghost predicate VersionsContiguous(versions: map<Coordinate, Version>) {
    forall c {:trigger HasPredecessor(versions, c)} :: c in versions ==> HasPredecessor(versions, c)
  }

  function DependencyTarget(key: DependencyKey, row: DependencyRow): Coordinate {
    Coordinate(Kind.Skill, key.namespace, key.name, row.version)
  }

  predicate DependencyClosed(versions: map<Coordinate, Version>, key: DependencyKey, row: DependencyRow) {
    && key.registry == PUBLIC_ORIGIN
    && key.recipe in versions
    && DependencyTarget(key, row) in versions
    && versions[DependencyTarget(key, row)].digest == row.digest
  }

  ghost predicate DependenciesClosed(dependencies: map<DependencyKey, DependencyRow>, versions: map<Coordinate, Version>) {
    forall key {:trigger DependencyClosed(versions, key, dependencies[key])} ::
      key in dependencies ==> DependencyClosed(versions, key, dependencies[key])
  }

  /** The sum of the reservations logged for one user and day. */
  function ReservedTotal(history: seq<Event>, key: UsageKey): Usage {
    if history == [] then Usage(0, 0)
    else
      var before := ReservedTotal(history[..|history| - 1], key);
      match history[|history| - 1]
      case Reserved(k, u) => if k == key then Plus(before, u) else before
      case Committed(_) => before
  }

  function Commits(history: seq<Event>, key: PublicationKey): nat {
    if history == [] then 0
    else Commits(history[..|history| - 1], key) + (if history[|history| - 1] == Committed(key) then 1 else 0)
  }

  predicate UsageOk(usage: map<UsageKey, Usage>, history: seq<Event>, key: UsageKey) {
    && (if key in usage then usage[key] else Usage(0, 0)) == ReservedTotal(history, key)
    && WithinQuota(ReservedTotal(history, key))
  }

  ghost predicate UsageConserved(usage: map<UsageKey, Usage>, history: seq<Event>) {
    forall key :: UsageOk(usage, history, key)
  }

  predicate CommittedOnce(mutations: map<PublicationKey, Mutation>, history: seq<Event>, key: PublicationKey) {
    Commits(history, key) == if key in mutations then 1 else 0
  }

  ghost predicate CommitsOk(mutations: map<PublicationKey, Mutation>, history: seq<Event>) {
    forall key :: CommittedOnce(mutations, history, key)
  }

  /** The result is what `Prepare` makes of the bundle for some publication second and profile. */
  predicate Faithful(result: PublishResult, bundle: Bundle) {
    && 0 < |result|
    && result == Prepare(bundle, result[0].publishedAt, result[0].profile)
  }

  ghost predicate MutationOk(m: Mutation, versions: map<Coordinate, Version>) {
    Faithful(m.result, m.bundle) && PublishedBundle(versions, m.bundle)
  }

  ghost predicate MutationsOk(mutations: map<PublicationKey, Mutation>, versions: map<Coordinate, Version>) {
    forall key {:trigger MutationOk(mutations[key], versions)} ::
      key in mutations ==> MutationOk(mutations[key], versions)
  }

  /** Quarantine starts more than one TTL after the last touch, cleanup more than one TTL after that. */
  predicate LeaseOk(i: Intent) {
    match i.phase
    case Uploading => i.leaseStartedAt == None
    case Finalizing => i.leaseStartedAt == None
    case Quarantine => i.leaseStartedAt.Some? && i.touchedAt + INTENT_TTL_SECONDS < i.leaseStartedAt.value
    case Cleanup => i.leaseStartedAt.Some? && i.touchedAt + 2 * INTENT_TTL_SECONDS < i.leaseStartedAt.value
  }

  ghost predicate IntentOk(i: Intent, incarnations: nat) {
    && i.bundle.Valid()
    && Faithful(i.result, i.bundle)
    && i.incarnation < incarnations
    && LeaseOk(i)
  }

  ghost predicate IntentsOk(intents: map<PublicationKey, Intent>, incarnations: nat) {
    forall key {:trigger IntentOk(intents[key], incarnations)} ::
      key in intents ==> IntentOk(intents[key], incarnations)
  }

  ghost predicate Contains(bundle: Bundle, key: ObjectKey) {
    exists i :: 0 <= i < |bundle.artifacts| && bundle.artifacts[i].Key() == key
  }

  ghost predicate RowOwned(uploads: map<Coordinate, UploadRow>, intents: map<PublicationKey, Intent>, c: Coordinate) {
    c in uploads ==>
      && uploads[c].owner in intents
      && Contains(intents[uploads[c].owner].bundle, ObjectKey(c, uploads[c].digest))
  }

  ghost predicate HasRows(uploads: map<Coordinate, UploadRow>, key: PublicationKey, bundle: Bundle) {
    forall i :: 0 <= i < |bundle.artifacts| ==>
      && bundle.artifacts[i].coordinate in uploads
      && uploads[bundle.artifacts[i].coordinate] == UploadRow(key, bundle.artifacts[i].digest)
  }

  /** Upload rows and intents describe each other: the foreign key holds and no row is missing. */
  ghost predicate UploadsOk(uploads: map<Coordinate, UploadRow>, intents: map<PublicationKey, Intent>) {
    && (forall c {:trigger RowOwned(uploads, intents, c)} :: c in uploads ==> RowOwned(uploads, intents, c))
    && (forall key {:trigger HasRows(uploads, key, intents[key].bundle)} ::
          key in intents ==> HasRows(uploads, key, intents[key].bundle))
  }

  ghost predicate ObjectsOk(objects: map<ObjectKey, string>) {
    forall key :: key in objects ==> objects[key] == key.digest
  }

  ghost predicate TablesOk(t: Registry) {
    && VersionsContiguous(t.versions)
    && DependenciesClosed(t.dependencies, t.versions)
    && UsageConserved(t.usage, t.history)
    && CommitsOk(t.mutations, t.history)
    && MutationsOk(t.mutations, t.versions)
    && IntentsOk(t.intents, t.incarnations)
    && UploadsOk(t.uploads, t.intents)
    && ObjectsOk(t.objects)
  }

  // ---------------------------------------------------------------- facts about the runs

  ghost predicate VersionsChecked(versions: map<Coordinate, Version>, bundle: Bundle, n: nat) {
    forall i :: 0 <= i < n && i < |bundle.artifacts| ==> HasPredecessor(versions, bundle.artifacts[i].coordinate)
  }

  ghost predicate DependencyMet(versions: map<Coordinate, Version>, bundle: Bundle, d: Dependency) {
    && d.registry == PUBLIC_ORIGIN
    && (Contains(bundle, ObjectKey(d.Skill(), d.digest)) || Published(versions, ObjectKey(d.Skill(), d.digest)))
  }

  ghost predicate DependenciesChecked(versions: map<Coordinate, Version>, bundle: Bundle, n: nat) {
    forall i :: 0 <= i < n && i < |bundle.dependencies| ==> DependencyMet(versions, bundle, bundle.dependencies[i])
  }

  predicate HasResult(pc: PublisherPc) {
    !(pc.Lookup? || pc.ReadClock? || pc.TouchPending? || pc.Returned? || pc.Stopped?)
  }

  function VersionsDone(r: PublisherRun): nat {
    if !HasResult(r.pc) then 0
    else if r.pc.CheckVersion? then r.pc.next else |r.bundle.artifacts|
  }

  function DependenciesDone(r: PublisherRun): nat {
    if !HasResult(r.pc) || r.pc.CheckVersion? then 0
    else if r.pc.CheckDependency? then r.pc.next else |r.bundle.dependencies|
  }

  /** A returned result is the stored one, stored under the same request. */
  predicate ReturnsStored(t: Registry, r: PublisherRun) {
    r.pc.Returned? ==> r.Key() in t.mutations && t.mutations[r.Key()] == Mutation(r.bundle, r.pc.result)
  }

  ghost predicate PublisherOk(t: Registry, r: PublisherRun) {
    && r.bundle.Valid()
    && r.startedAt <= r.now <= t.clock
    && (r.pc.Claim? ==> r.startedAt <= r.pc.at <= t.clock)
    && (HasResult(r.pc) ==> Faithful(r.result, r.bundle))
    && VersionsChecked(t.versions, r.bundle, VersionsDone(r))
    && DependenciesChecked(t.versions, r.bundle, DependenciesDone(r))
    && ReturnsStored(t, r)
  }

  predicate Owns(c: CleanerRun) { c.pc.ReadKeys? || c.pc.DeleteKeys? }

  /** While the claimed incarnation exists it stays in cleanup, two TTLs after its last touch. */
  predicate CleanerOk(t: Registry, c: CleanerRun) {
    && c.now <= t.clock
    && (Owns(c) ==>
          && c.pc.incarnation < t.incarnations
          && (c.pc.key in t.intents && t.intents[c.pc.key].incarnation == c.pc.incarnation ==>
                && t.intents[c.pc.key].phase.Cleanup?
                && t.intents[c.pc.key].touchedAt + 2 * INTENT_TTL_SECONDS < c.now))
  }

  ghost predicate LedgerOk(s: System) {
    && TablesOk(s.registry)
    && (forall id :: id in s.publishers ==> PublisherOk(s.registry, s.publishers[id]))
    && (forall id :: id in s.cleaners ==> CleanerOk(s.registry, s.cleaners[id]))
  }

  // ---------------------------------------------------------------- how the tables may change

  /** An incarnation keeps its request and never moves to an earlier phase; once closed, it is no
      longer touched. */
  predicate IntentAdvances(i: Intent, j: Intent) {
    && i.bundle == j.bundle
    && i.result == j.result
    && i.phase.Rank() <= j.phase.Rank()
    && (!i.phase.Open() ==> i.touchedAt == j.touchedAt)
  }

  ghost predicate KeyAdvances(t: Registry, u: Registry, key: PublicationKey) {
    key in u.intents && u.intents[key].incarnation < t.incarnations ==>
      && key in t.intents
      && t.intents[key].incarnation == u.intents[key].incarnation
      && IntentAdvances(t.intents[key], u.intents[key])
  }

  ghost predicate Extends<K, V>(m: map<K, V>, n: map<K, V>) {
    forall k :: k in m ==> k in n && n[k] == m[k]
  }

  ghost predicate Advances(t: Registry, u: Registry) {
    && t.clock <= u.clock
    && t.incarnations <= u.incarnations
    && Extends(t.versions, u.versions)
    && Extends(t.dependencies, u.dependencies)
    && Extends(t.mutations, u.mutations)
    && forall key {:trigger KeyAdvances(t, u, key)} :: key in u.intents ==> KeyAdvances(t, u, key)
  }

  lemma AdvancesTransitive(t: Registry, u: Registry, v: Registry)
    requires Advances(t, u) && Advances(u, v)
    ensures Advances(t, v)
  {
    forall key | key in v.intents ensures KeyAdvances(t, v, key) {
      assert KeyAdvances(u, v, key);
      if key in u.intents { assert KeyAdvances(t, u, key); }
    }
  }

  lemma PublisherStable(t: Registry, u: Registry, r: PublisherRun)
    requires Advances(t, u) && PublisherOk(t, r)
    ensures PublisherOk(u, r)
  {
    forall i | 0 <= i < VersionsDone(r) && i < |r.bundle.artifacts|
      ensures HasPredecessor(u.versions, r.bundle.artifacts[i].coordinate)
    {
      assert HasPredecessor(t.versions, r.bundle.artifacts[i].coordinate);
    }
    forall i | 0 <= i < DependenciesDone(r) && i < |r.bundle.dependencies|
      ensures DependencyMet(u.versions, r.bundle, r.bundle.dependencies[i])
    {
      assert DependencyMet(t.versions, r.bundle, r.bundle.dependencies[i]);
    }
  }

  lemma CleanerStable(t: Registry, u: Registry, c: CleanerRun)
    requires Advances(t, u) && CleanerOk(t, c)
    ensures CleanerOk(u, c)
  {
    if Owns(c) && c.pc.key in u.intents { assert KeyAdvances(t, u, c.pc.key); }
  }
}
