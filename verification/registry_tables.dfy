/**
 The state the Registry shares between requests: the D1 tables, the R2 objects and the clock, with
 one function per SQL statement, SQL batch or R2 call. A batch applies wholly or not at all, so each
 batch has a guard made of the primary keys, unique keys and CHECK constraints it must satisfy.

 A request digest is the SHA-256 of the canonical bundle; it is modelled by the bundle itself, so two
 requests have the same digest exactly when they carry the same bundle.
 */
module RegistryTables {
  import opened Options

  // ---------------------------------------------------------------- published values

  datatype Kind = Recipe | Skill

  datatype Coordinate = Coordinate(kind: Kind, namespace: string, name: string, version: int)

  /** The parts an R2 object key is rendered from; `ObjectKeys` proves that rendering injective. */
  datatype ObjectKey = ObjectKey(coordinate: Coordinate, digest: string)

  datatype Artifact = Artifact(coordinate: Coordinate, digest: string, sizeBytes: int) {
    function Key(): ObjectKey { ObjectKey(coordinate, digest) }
  }

  datatype Dependency = Dependency(registry: string, namespace: string, name: string, version: int, digest: string) {
    function Skill(): Coordinate { Coordinate(Kind.Skill, namespace, name, version) }
  }

  predicate SameIdentity(a: Coordinate, b: Coordinate) {
    a.kind == b.kind && a.namespace == b.namespace && a.name == b.name
  }

  /** What the publish schema accepts: skills without repeated names, then the recipe. */
  datatype Bundle = Bundle(namespace: string, idempotencyKey: string,
                           artifacts: seq<Artifact>, dependencies: seq<Dependency>) {
    ghost predicate Valid() {
      && 1 <= |artifacts| <= 9
      && artifacts[|artifacts| - 1].coordinate.kind.Recipe?
      && (forall i :: 0 <= i < |artifacts| - 1 ==> artifacts[i].coordinate.kind.Skill?)
      && (forall i :: 0 <= i < |artifacts| ==> artifacts[i].coordinate.namespace == namespace)
      && (forall i :: 0 <= i < |artifacts| ==> 0 < artifacts[i].sizeBytes)
      && (forall i, j :: 0 <= i < j < |artifacts| ==>
            !SameIdentity(artifacts[i].coordinate, artifacts[j].coordinate))
      && (forall i, j :: 0 <= i < j < |dependencies| ==>
            DependencyKeyOf(this, dependencies[i]) != DependencyKeyOf(this, dependencies[j]))
    }

    function Recipe(): Coordinate {
      if artifacts == [] then Coordinate(Kind.Recipe, namespace, "", 0)
      else artifacts[|artifacts| - 1].coordinate
    }
  }

  datatype Publisher = Publisher(githubUserId: nat, namespace: string, profile: string)

  datatype Envelope = Envelope(artifact: Artifact, publishedAt: int, profile: string)

  type PublishResult = seq<Envelope>

  /** The result is a function of the bundle, the publication second and the publisher profile. */
  function Prepare(bundle: Bundle, publishedAt: int, profile: string): PublishResult {
    seq(|bundle.artifacts|, i requires 0 <= i < |bundle.artifacts| =>
      Envelope(bundle.artifacts[i], publishedAt, profile))
  }

  /** The common publication second of a stored result, if there is one. */
  function ResultPublishedAt(result: PublishResult): Option<int> {
    if result != [] && (forall i :: 0 <= i < |result| ==> result[i].publishedAt == result[0].publishedAt)
    then Some(result[0].publishedAt) else None
  }

  // ---------------------------------------------------------------- rows

  datatype Version = Version(digest: string, sizeBytes: int)

  datatype DependencyKey = DependencyKey(recipe: Coordinate, registry: string, namespace: string, name: string)

  datatype DependencyRow = DependencyRow(version: int, digest: string)

  function DependencyKeyOf(bundle: Bundle, d: Dependency): DependencyKey {
    DependencyKey(bundle.Recipe(), d.registry, d.namespace, d.name)
  }

  datatype PublicationKey = PublicationKey(githubUserId: nat, idempotencyKey: string)

  datatype Mutation = Mutation(bundle: Bundle, result: PublishResult)

  datatype UsageKey = UsageKey(githubUserId: nat, day: int)

  datatype Usage = Usage(artifactCount: int, byteCount: int)

  datatype Phase = Uploading | Finalizing | Quarantine | Cleanup {
    predicate Open() { Uploading? || Finalizing? }
    function Rank(): nat {
      match this
      case Uploading => 0
      case Finalizing => 1
      case Quarantine => 2
      case Cleanup => 3
    }
  }

  /** `incarnation` is a model-only serial number: every reservation gets a fresh one. */
  datatype Intent = Intent(bundle: Bundle, result: PublishResult, touchedAt: int, phase: Phase,
                           leaseStartedAt: Option<int>, incarnation: nat)

  datatype UploadRow = UploadRow(owner: PublicationKey, digest: string)

  /** Model-only log of the batches that applied. */
  datatype Event =
    | Reserved(usageKey: UsageKey, usage: Usage)
    | Committed(key: PublicationKey)

  datatype Registry = Registry(
    clock: int,
    incarnations: nat,
    versions: map<Coordinate, Version>,
    dependencies: map<DependencyKey, DependencyRow>,
    mutations: map<PublicationKey, Mutation>,
    usage: map<UsageKey, Usage>,
    intents: map<PublicationKey, Intent>,
    uploads: map<Coordinate, UploadRow>,
    objects: map<ObjectKey, string>,
    history: seq<Event>)

  const EMPTY_REGISTRY: Registry := Registry(0, 0, map[], map[], map[], map[], map[], map[], map[], [])

  const PUBLIC_ORIGIN: string := "https://registry.example"
  const INTENT_TTL_SECONDS: int := 3600
  const MAXIMUM_DAILY_ARTIFACTS: int := 50
  const MAXIMUM_DAILY_BYTES: int := 10 * 1024 * 1024

  // ---------------------------------------------------------------- artifacts of a bundle

  predicate Names(artifacts: seq<Artifact>, c: Coordinate) {
    exists i :: 0 <= i < |artifacts| && artifacts[i].coordinate == c
  }

  function ArtifactAt(artifacts: seq<Artifact>, c: Coordinate): (a: Artifact)
    requires Names(artifacts, c)
    ensures a in artifacts && a.coordinate == c
  {
    if artifacts[0].coordinate == c then artifacts[0]
    else
      assert Names(artifacts[1..], c) by {
        var i :| 0 <= i < |artifacts| && artifacts[i].coordinate == c;
        assert artifacts[1..][i - 1].coordinate == c;
      }
      ArtifactAt(artifacts[1..], c)
  }

  lemma ArtifactAtIndex(bundle: Bundle, i: nat)
    requires bundle.Valid() && i < |bundle.artifacts|
    ensures Names(bundle.artifacts, bundle.artifacts[i].coordinate)
    ensures ArtifactAt(bundle.artifacts, bundle.artifacts[i].coordinate) == bundle.artifacts[i]
  {
    var c := bundle.artifacts[i].coordinate;
    assert Names(bundle.artifacts, c);
    var a := ArtifactAt(bundle.artifacts, c);
    var j :| 0 <= j < |bundle.artifacts| && bundle.artifacts[j] == a;
    if i != j {
      assert SameIdentity(bundle.artifacts[i].coordinate, bundle.artifacts[j].coordinate);
    }
  }

  function Coordinates(artifacts: seq<Artifact>): set<Coordinate> {
    set i | 0 <= i < |artifacts| :: artifacts[i].coordinate
  }

  function TotalBytes(artifacts: seq<Artifact>): int {
    if artifacts == [] then 0
    else TotalBytes(artifacts[..|artifacts| - 1]) + artifacts[|artifacts| - 1].sizeBytes
  }

  /** The object key belongs to a row of `artifact_versions`. */
  predicate Published(versions: map<Coordinate, Version>, key: ObjectKey) {
    key.coordinate in versions && versions[key.coordinate].digest == key.digest
  }

  ghost predicate PublishedBundle(versions: map<Coordinate, Version>, bundle: Bundle) {
    forall i :: 0 <= i < |bundle.artifacts| ==> Published(versions, bundle.artifacts[i].Key())
  }

  // ---------------------------------------------------------------- reads

  /** `max(version)` over the rows of one identity, and 0 when there is none. */
  ghost function LatestVersion(versions: map<Coordinate, Version>, c: Coordinate): int {
    MaximumOf(set d | d in versions && SameIdentity(d, c) :: d.version)
  }

  ghost function Pick<T>(s: set<T>): (x: T)
    requires s != {}
    ensures x in s
  {
    var x :| x in s; x
  }

  ghost function MaximumOf(s: set<int>): (m: int)
    ensures s == {} ==> m == 0
    ensures s != {} ==> m in s && forall x :: x in s ==> x <= m
  {
    if s == {} then 0
    else
      var x := Pick(s);
      var rest := s - {x};
      var m := MaximumOf(rest);
      assert s == rest + {x};
      if rest == {} || m < x then x else m
  }

  /** The bundled skill a dependency names: the last entry of the lookup map wins. */
  function BundledSkill(artifacts: seq<Artifact>, c: Coordinate): (found: Option<Artifact>)
    ensures found.Some? ==> found.value in artifacts && found.value.coordinate == c
  {
    if artifacts == [] then None
    else
      var last := artifacts[|artifacts| - 1];
      if last.coordinate == c then Some(last) else BundledSkill(artifacts[..|artifacts| - 1], c)
  }

  /** One iteration of the dependency loop: bundled skills are decided without a query. */
  predicate DependencyAccepted(versions: map<Coordinate, Version>, bundle: Bundle, d: Dependency) {
    && d.registry == PUBLIC_ORIGIN
    && match BundledSkill(bundle.artifacts, d.Skill())
       case Some(a) => a.digest == d.digest
       case None => Published(versions, ObjectKey(d.Skill(), d.digest))
  }

  function CurrentUsage(t: Registry, key: UsageKey): Usage {
    if key in t.usage then t.usage[key] else Usage(0, 0)
  }

  function Plus(a: Usage, b: Usage): Usage {
    Usage(a.artifactCount + b.artifactCount, a.byteCount + b.byteCount)
  }

  function Demand(bundle: Bundle): Usage {
    Usage(|bundle.artifacts|, TotalBytes(bundle.artifacts))
  }

  predicate WithinQuota(u: Usage) {
    u.artifactCount <= MAXIMUM_DAILY_ARTIFACTS && u.byteCount <= MAXIMUM_DAILY_BYTES
  }

  function Day(seconds: int): int { seconds / 86400 }

  // ---------------------------------------------------------------- publisher statements

  predicate Resumable(t: Registry, key: PublicationKey, bundle: Bundle) {
    key in t.intents && t.intents[key].bundle == bundle && t.intents[key].phase.Open()
  }

  /** `touchPendingPublication`: the row's stored result when the update matched. */
  function Touch(t: Registry, key: PublicationKey, bundle: Bundle, now: int): Registry {
    if Resumable(t, key, bundle)
    then t.(intents := t.intents[key := t.intents[key].(touchedAt := now)])
    else t
  }

  /** Keys, foreign key and CHECK constraints of the reservation batch. */
  predicate CanReserve(t: Registry, key: PublicationKey, bundle: Bundle, day: int) {
    && key !in t.intents
    && (forall i :: 0 <= i < |bundle.artifacts| ==> bundle.artifacts[i].coordinate !in t.uploads)
    && WithinQuota(Plus(CurrentUsage(t, UsageKey(key.githubUserId, day)), Demand(bundle)))
  }

  function Reserve(t: Registry, key: PublicationKey, bundle: Bundle, result: PublishResult, now: int): Registry
  {
    var usageKey := UsageKey(key.githubUserId, Day(now));
    t.(usage := t.usage[usageKey := Plus(CurrentUsage(t, usageKey), Demand(bundle))],
       intents := t.intents[key := Intent(bundle, result, now, Uploading, None, t.incarnations)],
       incarnations := t.incarnations + 1,
       uploads := t.uploads + UploadRows(key, bundle),
       history := t.history + [Reserved(usageKey, Demand(bundle))])
  }

  function UploadRows(key: PublicationKey, bundle: Bundle): map<Coordinate, UploadRow> {
    map c | c in Coordinates(bundle.artifacts) :: UploadRow(key, ArtifactAt(bundle.artifacts, c).digest)
  }

  lemma RowsAreOwn(t: Registry, key: PublicationKey, bundle: Bundle)
    requires forall i :: 0 <= i < |bundle.artifacts| ==> bundle.artifacts[i].coordinate !in t.uploads
    ensures forall c :: c in UploadRows(key, bundle) ==> c !in t.uploads && UploadRows(key, bundle)[c].owner == key
  {
  }

  /** R2 put with `onlyIf: etagDoesNotMatch "*"`; the put takes effect only when the key is free. */
  function PutIfAbsent(t: Registry, a: Artifact): Registry {
    if a.Key() in t.objects then t else t.(objects := t.objects[a.Key() := a.digest])
  }

  function ClaimFinalization(t: Registry, key: PublicationKey, bundle: Bundle, now: int): Registry {
    if Resumable(t, key, bundle)
    then t.(intents := t.intents[key := t.intents[key].(touchedAt := now, phase := Finalizing, leaseStartedAt := None)])
    else t
  }

  /** No artifact of the bundle takes the coordinates of a published version. */
  predicate Unpublished(versions: map<Coordinate, Version>, bundle: Bundle) {
    forall i :: 0 <= i < |bundle.artifacts| ==> bundle.artifacts[i].coordinate !in versions
  }

  /** Primary and unique keys of the commit batch. */
  predicate CanCommit(t: Registry, key: PublicationKey, bundle: Bundle) {
    && key !in t.mutations
    && Unpublished(t.versions, bundle)
    && (forall i, c :: 0 <= i < |bundle.artifacts| && c in t.versions ==>
          !(SameIdentity(c, bundle.artifacts[i].coordinate) && t.versions[c].digest == bundle.artifacts[i].digest))
    && (forall i :: 0 <= i < |bundle.dependencies| ==>
          DependencyKeyOf(bundle, bundle.dependencies[i]) !in t.dependencies)
  }

  function VersionRows(bundle: Bundle): map<Coordinate, Version> {
    map c | c in Coordinates(bundle.artifacts) ::
      var a := ArtifactAt(bundle.artifacts, c); Version(a.digest, a.sizeBytes)
  }

  predicate HasKey(bundle: Bundle, dependencies: seq<Dependency>, key: DependencyKey) {
    exists i :: 0 <= i < |dependencies| && DependencyKeyOf(bundle, dependencies[i]) == key
  }

  predicate DependsOn(bundle: Bundle, key: DependencyKey) {
    HasKey(bundle, bundle.dependencies, key)
  }

  function DependencyAt(bundle: Bundle, key: DependencyKey): (d: Dependency)
    requires DependsOn(bundle, key)
    ensures d in bundle.dependencies && DependencyKeyOf(bundle, d) == key
  {
    FirstWithKey(bundle, bundle.dependencies, key)
  }

  function FirstWithKey(bundle: Bundle, dependencies: seq<Dependency>, key: DependencyKey): (d: Dependency)
    requires HasKey(bundle, dependencies, key)
    ensures d in dependencies && DependencyKeyOf(bundle, d) == key
  {
    if DependencyKeyOf(bundle, dependencies[0]) == key then dependencies[0]
    else
      assert HasKey(bundle, dependencies[1..], key) by {
        var i :| 0 <= i < |dependencies| && DependencyKeyOf(bundle, dependencies[i]) == key;
        assert DependencyKeyOf(bundle, dependencies[1..][i - 1]) == key;
      }
      FirstWithKey(bundle, dependencies[1..], key)
  }

  function DependencyRows(bundle: Bundle): map<DependencyKey, DependencyRow> {
    map key | key in (set i | 0 <= i < |bundle.dependencies| :: DependencyKeyOf(bundle, bundle.dependencies[i])) ::
      var d := DependencyAt(bundle, key); DependencyRow(d.version, d.digest)
  }

  /** The inserts of the commit batch. */
  function PublishRows(t: Registry, key: PublicationKey, bundle: Bundle, result: PublishResult): Registry {
    t.(versions := t.versions + VersionRows(bundle),
       dependencies := t.dependencies + DependencyRows(bundle),
       mutations := t.mutations[key := Mutation(bundle, result)],
       history := t.history + [Committed(key)])
  }

  /** The batch ends by deleting the intent, but only when it is still `finalizing`. */
  function Commit(t: Registry, key: PublicationKey, bundle: Bundle, result: PublishResult): Registry {
    var published := PublishRows(t, key, bundle, result);
    if key in t.intents && t.intents[key].phase.Finalizing? then DeleteIntent(published, key) else published
  }

  /** Deleting an intent cascades to its upload-artifact rows. */
  function DeleteIntent(t: Registry, key: PublicationKey): Registry {
    t.(intents := t.intents - {key},
       uploads := map c | c in t.uploads && t.uploads[c].owner != key :: t.uploads[c])
  }

  // ---------------------------------------------------------------- cleanup statements

  predicate StaleUpload(i: Intent, now: int) {
    i.phase.Open() && i.touchedAt < now - INTENT_TTL_SECONDS
  }

  predicate ExpiredLease(i: Intent, now: int) {
    && (i.phase.Quarantine? || i.phase.Cleanup?)
    && i.leaseStartedAt.Some?
    && i.leaseStartedAt.value < now - INTENT_TTL_SECONDS
  }

  function QuarantineIntent(t: Registry, key: PublicationKey, now: int): Registry {
    if key in t.intents && StaleUpload(t.intents[key], now)
    then t.(intents := t.intents[key := t.intents[key].(phase := Quarantine, leaseStartedAt := Some(now))])
    else t
  }

  predicate CanClaimCleanup(t: Registry, key: PublicationKey, now: int) {
    key in t.intents && ExpiredLease(t.intents[key], now)
  }

  function ClaimCleanup(t: Registry, key: PublicationKey, now: int): Registry
    requires CanClaimCleanup(t, key, now)
  {
    t.(intents := t.intents[key := t.intents[key].(phase := Cleanup, leaseStartedAt := Some(now))])
  }

  function UploadKeys(t: Registry, key: PublicationKey): set<ObjectKey> {
    set c | c in t.uploads && t.uploads[c].owner == key :: ObjectKey(c, t.uploads[c].digest)
  }

  function DeleteObject(t: Registry, key: ObjectKey): Registry {
    t.(objects := t.objects - {key})
  }

  function ForgetIntent(t: Registry, key: PublicationKey, now: int): Registry {
    if key in t.intents && t.intents[key].phase.Cleanup? && t.intents[key].leaseStartedAt == Some(now)
    then DeleteIntent(t, key) else t
  }
}
