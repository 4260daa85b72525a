/**
 What bounded lifetimes add. A publisher lives at most `publisher` seconds and a maintenance pass at
 most `maintenance` seconds; twice the first and once the second must fit in the intent TTL. Then no
 live publisher's intent leaves the open phases, a cleaner alone holds the incarnation whose lease it
 took, and no stored object is orphaned.
 */
module RegistryTiming {
  import opened Options
  import opened RegistryTables
  import opened RegistryRuns
  import opened RegistryLedger
  import opened RegistryStatements
  import opened RegistryInvariant

  datatype Limits = Limits(publisher: nat, maintenance: nat) {
    predicate Sufficient() {
      2 * publisher <= INTENT_TTL_SECONDS && maintenance <= INTENT_TTL_SECONDS
    }
  }

  predicate PublisherInTime(limits: Limits, clock: int, r: PublisherRun) {
    r.Live() ==> clock <= r.startedAt + limits.publisher
  }

  predicate CleanerInTime(limits: Limits, clock: int, c: CleanerRun) {
    c.Live() ==> clock <= c.now + limits.maintenance
  }

  ghost predicate WithinLifetimes(limits: Limits, s: System) {
    && (forall id :: id in s.publishers ==> PublisherInTime(limits, s.registry.clock, s.publishers[id]))
    && (forall id :: id in s.cleaners ==> CleanerInTime(limits, s.registry.clock, s.cleaners[id]))
  }

  // ---------------------------------------------------------------- what a live run can rely on

  /** The steps at which a publisher works on an intent it reserved or resumed. */
  predicate Holding(r: PublisherRun) {
    || (r.resumed && (r.pc.CheckVersion? || r.pc.CheckDependency?))
    || r.pc.Put? || r.pc.Head? || r.pc.ReadClaimClock? || r.pc.Claim? || r.pc.CommitBatch?
  }

  ghost predicate Held(t: Registry, key: PublicationKey, bundle: Bundle, since: int) {
    || PublishedBundle(t.versions, bundle)
    || (Resumable(t, key, bundle) && since <= t.intents[key].touchedAt)
  }

  ghost predicate ReadyToCommit(t: Registry, key: PublicationKey, bundle: Bundle) {
    || PublishedBundle(t.versions, bundle)
    || (key in t.intents && t.intents[key].phase.Finalizing?)
  }

  ghost predicate HolderOk(limits: Limits, t: Registry, r: PublisherRun) {
    && (Holding(r) ==> Held(t, r.Key(), r.bundle, r.startedAt - limits.publisher))
    && (r.pc.CommitBatch? ==> ReadyToCommit(t, r.Key(), r.bundle))
  }

  predicate LeaseHeld(t: Registry, c: CleanerRun)
    requires Owns(c)
  {
    && c.pc.key in t.intents
    && t.intents[c.pc.key].incarnation == c.pc.incarnation
    && t.intents[c.pc.key].phase.Cleanup?
    && t.intents[c.pc.key].leaseStartedAt == Some(c.now)
  }

  /** Every object of the bundle is still to be deleted, gone, or published by someone else. */
  ghost predicate Erased(t: Registry, bundle: Bundle, keys: seq<ObjectKey>) {
    forall i {:trigger bundle.artifacts[i]} :: 0 <= i < |bundle.artifacts| ==>
      || bundle.artifacts[i].Key() in keys
      || bundle.artifacts[i].Key() !in t.objects
      || Published(t.versions, bundle.artifacts[i].Key())
  }

  ghost predicate AllContained(bundle: Bundle, keys: seq<ObjectKey>) {
    forall i :: 0 <= i < |keys| ==> Contains(bundle, keys[i])
  }

  ghost predicate LeaseOwnerOk(t: Registry, c: CleanerRun) {
    Owns(c) ==>
      && LeaseHeld(t, c)
      && (c.pc.DeleteKeys? ==>
            && Erased(t, t.intents[c.pc.key].bundle, c.pc.keys)
            && AllContained(t.intents[c.pc.key].bundle, c.pc.keys))
  }

  /** The object's key belongs to a published version or to an upload row of an existing intent. */
  predicate Accounted(t: Registry, key: ObjectKey) {
    || Published(t.versions, key)
    || (key.coordinate in t.uploads && t.uploads[key.coordinate].digest == key.digest)
  }

  ghost predicate NoOrphans(t: Registry) {
    forall key {:trigger Accounted(t, key)} :: key in t.objects ==> Accounted(t, key)
  }

  ghost predicate Exclusive(cleaners: map<nat, CleanerRun>) {
    forall a, b :: a in cleaners && b in cleaners && a != b && Owns(cleaners[a]) && Owns(cleaners[b]) ==>
      cleaners[a].pc.key != cleaners[b].pc.key
  }

  ghost predicate TimedOk(limits: Limits, s: System) {
    && NoOrphans(s.registry)
    && Exclusive(s.cleaners)
    && (forall id {:trigger HolderOk(limits, s.registry, s.publishers[id])} ::
          id in s.publishers ==> HolderOk(limits, s.registry, s.publishers[id]))
    && (forall id {:trigger LeaseOwnerOk(s.registry, s.cleaners[id])} ::
          id in s.cleaners ==> LeaseOwnerOk(s.registry, s.cleaners[id]))
  }

  // ---------------------------------------------------------------- publishers under other steps

  /** What another step may do to a publisher's intent. */
  ghost predicate KeepsHold(t: Registry, u: Registry, key: PublicationKey, bundle: Bundle, since: int) {
    && (Held(t, key, bundle, since) ==> Held(u, key, bundle, since))
    && (Held(t, key, bundle, since) && ReadyToCommit(t, key, bundle) ==> ReadyToCommit(u, key, bundle))
  }

  lemma PublishedBundleStable(t: Registry, u: Registry, bundle: Bundle)
    requires Extends(t.versions, u.versions) && PublishedBundle(t.versions, bundle)
    ensures PublishedBundle(u.versions, bundle)
  {
    forall i | 0 <= i < |bundle.artifacts| ensures Published(u.versions, bundle.artifacts[i].Key()) {
      assert Published(t.versions, bundle.artifacts[i].Key());
    }
  }

  lemma TouchKeepsHold(t: Registry, other: PublicationKey, b: Bundle, now: int,
                       key: PublicationKey, bundle: Bundle, since: int)
    requires since <= now
    ensures KeepsHold(t, Touch(t, other, b, now), key, bundle, since)
    ensures KeepsHold(t, ClaimFinalization(t, other, b, now), key, bundle, since)
  {
  }

  lemma ReserveKeepsHold(t: Registry, other: PublicationKey, b: Bundle, result: PublishResult, now: int,
                         key: PublicationKey, bundle: Bundle, since: int)
    requires other !in t.intents
    ensures KeepsHold(t, Reserve(t, other, b, result, now), key, bundle, since)
  {
    hide UploadRows, Demand;
  }

  lemma CommitLeavesOthers(t: Registry, other: PublicationKey, b: Bundle, result: PublishResult, key: PublicationKey)
    requires key != other || (key in t.intents && !t.intents[key].phase.Finalizing?)
    ensures var u := Commit(t, other, b, result);
            (key in u.intents <==> key in t.intents) && (key in t.intents ==> u.intents[key] == t.intents[key])
  {
  }

  lemma CommitExtends(t: Registry, other: PublicationKey, b: Bundle, result: PublishResult)
    requires b.Valid() && Unpublished(t.versions, b)
    ensures Extends(t.versions, Commit(t, other, b, result).versions)
    ensures PublishedBundle(Commit(t, other, b, result).versions, b)
  {
    CommitPublishesBundle(t.versions, b);
  }

  lemma CommitKeepsHold(t: Registry, other: PublicationKey, b: Bundle, result: PublishResult, otherSince: int,
                        key: PublicationKey, bundle: Bundle, since: int)
    requires b.Valid() && Unpublished(t.versions, b) && Held(t, other, b, otherSince)
    ensures KeepsHold(t, Commit(t, other, b, result), key, bundle, since)
  {
    var u := Commit(t, other, b, result);
    CommitExtends(t, other, b, result);
    NotPublished(t.versions, b);
    if PublishedBundle(t.versions, bundle) {
      PublishedBundleStable(t, u, bundle);
    } else if key != other {
      CommitLeavesOthers(t, other, b, result, key);
    } else if Resumable(t, key, bundle) {
      assert bundle == b;
    }
  }

  lemma NotPublished(versions: map<Coordinate, Version>, bundle: Bundle)
    requires bundle.Valid() && Unpublished(versions, bundle)
    ensures !PublishedBundle(versions, bundle)
  {
    assert bundle.artifacts[0].coordinate !in versions;
    assert !Published(versions, bundle.artifacts[0].Key());
  }

  lemma QuarantineKeepsHold(t: Registry, other: PublicationKey, now: int, key: PublicationKey, bundle: Bundle, since: int)
    requires now - INTENT_TTL_SECONDS <= since
    ensures KeepsHold(t, QuarantineIntent(t, other, now), key, bundle, since)
  {
  }

  lemma CleanupKeepsHold(t: Registry, other: PublicationKey, now: int, key: PublicationKey, bundle: Bundle, since: int)
    ensures CanClaimCleanup(t, other, now) ==> KeepsHold(t, ClaimCleanup(t, other, now), key, bundle, since)
    ensures KeepsHold(t, ForgetIntent(t, other, now), key, bundle, since)
  {
  }

  // ---------------------------------------------------------------- cleaners under other steps

  /** Two bundles with upload rows of different owners share no object key. */
  lemma RowsDisjoint(t: Registry, k1: PublicationKey, k2: PublicationKey, key: ObjectKey)
    requires UploadsOk(t.uploads, t.intents)
    requires k1 in t.intents && k2 in t.intents
    requires Contains(t.intents[k1].bundle, key) && Contains(t.intents[k2].bundle, key)
    ensures k1 == k2
  {
    RowsOf(t, k1, key);
    RowsOf(t, k2, key);
  }

  lemma RowsOf(t: Registry, k: PublicationKey, key: ObjectKey)
    requires UploadsOk(t.uploads, t.intents) && k in t.intents && Contains(t.intents[k].bundle, key)
    ensures key.coordinate in t.uploads && t.uploads[key.coordinate] == UploadRow(k, key.digest)
  {
    assert HasRows(t.uploads, k, t.intents[k].bundle);
    var i :| 0 <= i < |t.intents[k].bundle.artifacts| && t.intents[k].bundle.artifacts[i].Key() == key;
  }

  /** A holder's object is published or has the holder's own upload row. */
  lemma HolderKeyAccounted(t: Registry, key: PublicationKey, bundle: Bundle, since: int, o: ObjectKey)
    requires UploadsOk(t.uploads, t.intents) && Held(t, key, bundle, since) && Contains(bundle, o)
    ensures Published(t.versions, o)
            || (Resumable(t, key, bundle) && o.coordinate in t.uploads && t.uploads[o.coordinate] == UploadRow(key, o.digest))
  {
    var i :| 0 <= i < |bundle.artifacts| && bundle.artifacts[i].Key() == o;
    if PublishedBundle(t.versions, bundle) {
      assert Published(t.versions, bundle.artifacts[i].Key());
    } else {
      RowsOf(t, key, o);
    }
  }

  /** A holder and a cleaner of another intent meet only on published objects. */
  lemma HolderMeetsCleaner(t: Registry, key: PublicationKey, bundle: Bundle, since: int, c: CleanerRun, o: ObjectKey)
    requires UploadsOk(t.uploads, t.intents) && Held(t, key, bundle, since) && Contains(bundle, o)
    requires Owns(c) && LeaseHeld(t, c) && Contains(t.intents[c.pc.key].bundle, o)
    ensures Published(t.versions, o)
  {
    HolderKeyAccounted(t, key, bundle, since, o);
    if !Published(t.versions, o) { RowsDisjoint(t, key, c.pc.key, o); }
  }

  /** The intent, objects and published rows a lease owner relies on are left alone or helped. */
  lemma LeaseOwnerStable(t: Registry, u: Registry, c: CleanerRun)
    requires LeaseOwnerOk(t, c)
    requires Owns(c) ==> c.pc.key in u.intents && u.intents[c.pc.key] == t.intents[c.pc.key]
    requires forall o :: o in u.objects ==> o in t.objects
    requires Extends(t.versions, u.versions)
    ensures LeaseOwnerOk(u, c)
  {
    if c.pc.DeleteKeys? {
      var bundle := t.intents[c.pc.key].bundle;
      forall i {:trigger bundle.artifacts[i]} | 0 <= i < |bundle.artifacts|
        ensures bundle.artifacts[i].Key() in c.pc.keys || bundle.artifacts[i].Key() !in u.objects
                || Published(u.versions, bundle.artifacts[i].Key())
      {
        assert Erased(t, bundle, c.pc.keys);
      }
    }
  }

  lemma LeaseOwnerAfterPut(t: Registry, a: Artifact, key: PublicationKey, bundle: Bundle, since: int, c: CleanerRun)
    requires UploadsOk(t.uploads, t.intents) && LeaseOwnerOk(t, c)
    requires Held(t, key, bundle, since) && Contains(bundle, a.Key())
    ensures LeaseOwnerOk(PutIfAbsent(t, a), c)
  {
    if c.pc.DeleteKeys? {
      var u := PutIfAbsent(t, a);
      var own := t.intents[c.pc.key].bundle;
      forall i {:trigger own.artifacts[i]} | 0 <= i < |own.artifacts|
        ensures own.artifacts[i].Key() in c.pc.keys || own.artifacts[i].Key() !in u.objects
                || Published(u.versions, own.artifacts[i].Key())
      {
        assert Erased(t, own, c.pc.keys);
        if own.artifacts[i].Key() == a.Key() { HolderMeetsCleaner(t, key, bundle, since, c, a.Key()); }
      }
    }
  }
}
