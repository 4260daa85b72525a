/**
 Published implies stored. The tables alone do not give it: a reservation may take the object key of a
 version that was published between the version check and the reservation. `GuardedStep` is the missing
 condition; under it and the lifetime limits every published version keeps its object.
 */
module RegistryStorage {
  import opened Options
  import opened RegistryTables
  import opened RegistryRuns
  import opened RegistryLedger
  import opened RegistryStatements
  import opened RegistryInvariant
  import opened RegistryTiming
  import opened RegistryTimedSteps

  /** Some upload row holds the object key of a published version. */
  predicate Shadows(t: Registry, c: Coordinate) {
    c in t.uploads && Published(t.versions, ObjectKey(c, t.uploads[c].digest))
  }

  ghost predicate NoShadow(t: Registry) {
    forall c {:trigger Shadows(t, c)} :: !Shadows(t, c)
  }

  predicate HasObject(t: Registry, c: Coordinate) {
    c in t.versions ==> ObjectKey(c, t.versions[c].digest) in t.objects
  }

  ghost predicate PublishedImpliesStored(t: Registry) {
    forall c {:trigger HasObject(t, c)} :: HasObject(t, c)
  }

  /** How many of the run's objects are known to be stored. */
  function StoredCount(r: PublisherRun): nat {
    match r.pc
    case Put(i) => i
    case Head(i) => i
    case ReadClaimClock => |r.bundle.artifacts|
    case Claim(_) => |r.bundle.artifacts|
    case CommitBatch => |r.bundle.artifacts|
    case _ => 0
  }

  ghost predicate UploadedOk(t: Registry, r: PublisherRun) {
    forall i {:trigger r.bundle.artifacts[i]} :: 0 <= i < StoredCount(r) && i < |r.bundle.artifacts| ==>
      r.bundle.artifacts[i].Key() in t.objects
  }

  ghost predicate StorageOk(s: System) {
    && NoShadow(s.registry)
    && PublishedImpliesStored(s.registry)
    && forall id {:trigger UploadedOk(s.registry, s.publishers[id])} ::
         id in s.publishers ==> UploadedOk(s.registry, s.publishers[id])
  }

  /** No artifact of the bundle has the object key of a published version. */
  ghost predicate KeysUnpublished(versions: map<Coordinate, Version>, bundle: Bundle) {
    forall i :: 0 <= i < |bundle.artifacts| ==> !Published(versions, bundle.artifacts[i].Key())
  }

  /** The step is a reservation that applies. */
  ghost predicate Reserves(s: System, l: Label) {
    && l.StepPublisher? && l.id in s.publishers && s.publishers[l.id].pc.ReserveBatch? && !l.reply.Refused?
    && CanReserve(s.registry, s.publishers[l.id].Key(), s.publishers[l.id].bundle, Day(s.publishers[l.id].now))
  }

  /** A reservation that applies takes no object key of a published version. */
  ghost predicate GuardedStep(s: System, l: Label) {
    Reserves(s, l) ==> KeysUnpublished(s.registry.versions, s.publishers[l.id].bundle)
  }

  // ---------------------------------------------------------------- publisher steps

  lemma ReserveKeepsNoShadow(t: Registry, key: PublicationKey, bundle: Bundle, result: PublishResult, now: int)
    requires NoShadow(t) && bundle.Valid() && KeysUnpublished(t.versions, bundle)
    ensures NoShadow(Reserve(t, key, bundle, result, now))
  {
    var u := Reserve(t, key, bundle, result, now);
    UploadRowsAt(key, bundle);
    forall c ensures !Shadows(u, c) {
      assert !Shadows(t, c);
      if c in UploadRows(key, bundle) {
        var i :| 0 <= i < |bundle.artifacts| && bundle.artifacts[i].Key() == ObjectKey(c, UploadRows(key, bundle)[c].digest);
        assert !Published(t.versions, bundle.artifacts[i].Key());
      }
    }
  }

  /** The commit removes the upload rows of exactly the keys it publishes. */
  lemma CommitKeepsNoShadow(t: Registry, key: PublicationKey, bundle: Bundle, result: PublishResult, since: int)
    requires NoShadow(t) && UploadsOk(t.uploads, t.intents)
    requires bundle.Valid() && Unpublished(t.versions, bundle)
    requires Held(t, key, bundle, since) && ReadyToCommit(t, key, bundle)
    ensures NoShadow(Commit(t, key, bundle, result))
  {
    var u := Commit(t, key, bundle, result);
    NotPublished(t.versions, bundle);
    forall c ensures !Shadows(u, c) {
      assert !Shadows(t, c);
      if c in u.uploads {
        var o := ObjectKey(c, u.uploads[c].digest);
        CommitPublishes(t.versions, bundle, o);
        if Contains(bundle, o) { RowsOf(t, key, o); }
      }
    }
  }

  lemma CommitKeepsStored(t: Registry, key: PublicationKey, bundle: Bundle, result: PublishResult)
    requires PublishedImpliesStored(t) && bundle.Valid() && Unpublished(t.versions, bundle)
    requires forall i {:trigger bundle.artifacts[i]} :: 0 <= i < |bundle.artifacts| ==> bundle.artifacts[i].Key() in t.objects
    ensures PublishedImpliesStored(Commit(t, key, bundle, result))
  {
    var u := Commit(t, key, bundle, result);
    forall c ensures HasObject(u, c) {
      assert HasObject(t, c);
      if c in u.versions {
        var o := ObjectKey(c, u.versions[c].digest);
        CommitPublishes(t.versions, bundle, o);
        assert Published(t.versions, o) || Contains(bundle, o);
      }
    }
  }

  lemma TablesChangeKeepsStorage(t: Registry, u: Registry)
    requires NoShadow(t) && PublishedImpliesStored(t)
    requires u.versions == t.versions && u.uploads == t.uploads
    requires forall o :: o in t.objects ==> o in u.objects
    ensures NoShadow(u) && PublishedImpliesStored(u)
  {
    forall c ensures !Shadows(u, c) {
      assert !Shadows(t, c);
    }
    forall c ensures HasObject(u, c) {
      assert HasObject(t, c);
    }
  }

  lemma ReserveKeepsStored(t: Registry, key: PublicationKey, bundle: Bundle, result: PublishResult, now: int)
    requires PublishedImpliesStored(t)
    ensures PublishedImpliesStored(Reserve(t, key, bundle, result, now))
  {
    forall c ensures HasObject(Reserve(t, key, bundle, result, now), c) {
      assert HasObject(t, c);
    }
  }

  lemma TouchKeepsStorage(t: Registry, key: PublicationKey, b: Bundle, now: int)
    requires NoShadow(t) && PublishedImpliesStored(t)
    ensures NoShadow(Touch(t, key, b, now)) && PublishedImpliesStored(Touch(t, key, b, now))
    ensures NoShadow(ClaimFinalization(t, key, b, now)) && PublishedImpliesStored(ClaimFinalization(t, key, b, now))
  {
    TablesChangeKeepsStorage(t, Touch(t, key, b, now));
    TablesChangeKeepsStorage(t, ClaimFinalization(t, key, b, now));
  }

  lemma PutKeepsStorage(t: Registry, a: Artifact)
    requires NoShadow(t) && PublishedImpliesStored(t)
    ensures NoShadow(PutIfAbsent(t, a)) && PublishedImpliesStored(PutIfAbsent(t, a))
  {
    TablesChangeKeepsStorage(t, PutIfAbsent(t, a));
  }

  lemma PublisherKeepsStorage(limits: Limits, t: Registry, r: PublisherRun, reply: Reply)
    requires NoShadow(t) && PublishedImpliesStored(t) && UploadsOk(t.uploads, t.intents)
    requires PublisherOk(t, r) && r.Live() && HolderOk(limits, t, r) && UploadedOk(t, r)
    requires r.pc.ReserveBatch? && !reply.Refused? && CanReserve(t, r.Key(), r.bundle, Day(r.now)) ==>
               KeysUnpublished(t.versions, r.bundle)
    ensures var u := PublisherStep(t, r, reply).0; NoShadow(u) && PublishedImpliesStored(u)
  {
    hide Touch, ClaimFinalization, PutIfAbsent, Reserve, Commit, CanReserve;
    hide UploadsOk, NoShadow, PublishedImpliesStored, KeysUnpublished;
    match r.pc
    case ReserveBatch =>
      if CanReserve(t, r.Key(), r.bundle, Day(r.now)) && !reply.Refused? {
        ReserveKeepsNoShadow(t, r.Key(), r.bundle, r.result, r.now);
        ReserveKeepsStored(t, r.Key(), r.bundle, r.result, r.now);
      }
    case CommitBatch =>
      if CanCommit(t, r.Key(), r.bundle) && !reply.Refused? {
        CommitKeepsNoShadow(t, r.Key(), r.bundle, r.result, r.startedAt - limits.publisher);
        CommitKeepsStored(t, r.Key(), r.bundle, r.result);
      }
    case TouchPending => TouchKeepsStorage(t, r.Key(), r.bundle, r.now);
    case TouchAfterConflict => TouchKeepsStorage(t, r.Key(), r.bundle, r.now);
    case Claim(at) => TouchKeepsStorage(t, r.Key(), r.bundle, at);
    case Put(i) => if i < |r.bundle.artifacts| { PutKeepsStorage(t, r.bundle.artifacts[i]); }
    case _ =>
  }

  lemma PublisherAddsObjects(t: Registry, r: PublisherRun, reply: Reply)
    requires r.Live()
    ensures forall o :: o in t.objects ==> o in PublisherStep(t, r, reply).0.objects
  {
    hide UploadRows, VersionRows, DependencyRows;
  }

  lemma UploadedStable(t: Registry, u: Registry, r: PublisherRun)
    requires UploadedOk(t, r)
    requires forall o :: o in t.objects ==> o in u.objects
    ensures UploadedOk(u, r)
  {
  }

  lemma OwnPutUploads(t: Registry, r: PublisherRun, i: nat)
    requires r.pc == Put(i) && i < |r.bundle.artifacts| && UploadedOk(t, r)
    ensures UploadedOk(PutIfAbsent(t, r.bundle.artifacts[i]), r.At(Put(i + 1)))
    ensures UploadedOk(PutIfAbsent(t, r.bundle.artifacts[i]), r.At(Head(i)))
  {
  }

  lemma OwnHeadUploads(t: Registry, r: PublisherRun, i: nat)
    requires r.pc == Head(i) && UploadedOk(t, r)
    ensures UploadedOk(t, AfterHead(t, r, i))
  {
  }

  /** Outside the store loop a step never counts more objects as stored than before. */
  lemma OtherStepsCountLess(t: Registry, r: PublisherRun, reply: Reply)
    requires r.Live() && !r.pc.Head? && (r.pc.Put? ==> |r.bundle.artifacts| <= r.pc.next)
    ensures var r' := PublisherStep(t, r, reply).1;
            r'.bundle == r.bundle && (StoredCount(r') <= StoredCount(r) || StoredCount(r') == 0)
  {
    hide Touch, ClaimFinalization, PutIfAbsent, Reserve, Commit, CanReserve, CanCommit;
  }

  lemma FewerUploads(t: Registry, u: Registry, r: PublisherRun, r': PublisherRun)
    requires UploadedOk(t, r) && r'.bundle == r.bundle
    requires StoredCount(r') <= StoredCount(r) || StoredCount(r') == 0
    requires forall o :: o in t.objects ==> o in u.objects
    ensures UploadedOk(u, r')
  {
  }

  lemma OwnUploads(t: Registry, r: PublisherRun, reply: Reply)
    requires r.Live() && UploadedOk(t, r)
    ensures UploadedOk(PublisherStep(t, r, reply).0, PublisherStep(t, r, reply).1)
  {
    hide UploadedOk, Touch, ClaimFinalization, Reserve, Commit, CanReserve, CanCommit, PutIfAbsent;
    if r.pc.Put? && r.pc.next < |r.bundle.artifacts| {
      OwnPutUploads(t, r, r.pc.next);
    } else if r.pc.Head? {
      OwnHeadUploads(t, r, r.pc.next);
    } else {
      OtherStepsCountLess(t, r, reply);
      PublisherAddsObjects(t, r, reply);
      FewerUploads(t, PublisherStep(t, r, reply).0, r, PublisherStep(t, r, reply).1);
    }
  }

  // ---------------------------------------------------------------- cleaner steps

  lemma DeleteKeepsStorage(t: Registry, c: CleanerRun)
    requires NoShadow(t) && PublishedImpliesStored(t) && UploadsOk(t.uploads, t.intents)
    requires LeaseOwnerOk(t, c) && c.pc.DeleteKeys? && c.pc.keys != []
    ensures var u := DeleteObject(t, c.pc.keys[0]); NoShadow(u) && PublishedImpliesStored(u)
  {
    var o := c.pc.keys[0];
    var u := DeleteObject(t, o);
    assert Contains(t.intents[c.pc.key].bundle, o);
    RowsOf(t, c.pc.key, o);
    assert !Shadows(t, o.coordinate);
    forall d ensures !Shadows(u, d) {
      assert !Shadows(t, d);
    }
    forall d ensures HasObject(u, d) {
      assert HasObject(t, d);
    }
  }

  lemma DeleteKeepsUploads(limits: Limits, t: Registry, c: CleanerRun, r: PublisherRun)
    requires NoShadow(t) && UploadsOk(t.uploads, t.intents)
    requires LeaseOwnerOk(t, c) && c.pc.DeleteKeys? && c.pc.keys != []
    requires HolderOk(limits, t, r) && UploadedOk(t, r)
    ensures UploadedOk(DeleteObject(t, c.pc.keys[0]), r)
  {
    var o := c.pc.keys[0];
    assert Contains(t.intents[c.pc.key].bundle, o);
    if StoredCount(r) > 0 && Contains(r.bundle, o) {
      HolderMeetsCleaner(t, r.Key(), r.bundle, r.startedAt - limits.publisher, c, o);
      RowsOf(t, c.pc.key, o);
      assert Shadows(t, o.coordinate);
    }
    forall i {:trigger r.bundle.artifacts[i]} | 0 <= i < StoredCount(r) && i < |r.bundle.artifacts|
      ensures r.bundle.artifacts[i].Key() in DeleteObject(t, o).objects
    {
      if r.bundle.artifacts[i].Key() == o { assert Contains(r.bundle, o); }
    }
  }

  lemma ForgetKeepsStorage(t: Registry, key: PublicationKey, now: int)
    requires NoShadow(t) && PublishedImpliesStored(t)
    ensures var u := ForgetIntent(t, key, now); NoShadow(u) && PublishedImpliesStored(u)
  {
    var u := ForgetIntent(t, key, now);
    forall d ensures !Shadows(u, d) {
      assert !Shadows(t, d);
    }
    forall d ensures HasObject(u, d) {
      assert HasObject(t, d);
    }
  }

  lemma CleanerKeepsStorage(t: Registry, c: CleanerRun, input: CleanerInput)
    requires NoShadow(t) && PublishedImpliesStored(t) && UploadsOk(t.uploads, t.intents)
    requires LeaseOwnerOk(t, c) && c.Live()
    ensures var u := CleanerStep(t, c, input).0; NoShadow(u) && PublishedImpliesStored(u)
  {
    hide ForgetIntent, LeaseOwnerOk, UploadsOk, NoShadow, PublishedImpliesStored;
    var u := CleanerStep(t, c, input).0;
    if c.pc.DeleteKeys? && !input.reply.Refused? {
      if c.pc.keys == [] { ForgetKeepsStorage(t, c.pc.key, c.now); } else { DeleteKeepsStorage(t, c); }
    } else {
      TablesChangeKeepsStorage(t, u);
    }
  }

  lemma CleanerKeepsUploads(limits: Limits, t: Registry, c: CleanerRun, input: CleanerInput, r: PublisherRun)
    requires NoShadow(t) && UploadsOk(t.uploads, t.intents) && LeaseOwnerOk(t, c) && c.Live()
    requires HolderOk(limits, t, r) && UploadedOk(t, r)
    ensures UploadedOk(CleanerStep(t, c, input).0, r)
  {
    hide LeaseOwnerOk, UploadsOk, NoShadow, HolderOk;
    var u := CleanerStep(t, c, input).0;
    if c.pc.DeleteKeys? && c.pc.keys != [] && !input.reply.Refused? {
      DeleteKeepsUploads(limits, t, c, r);
    } else {
      UploadedStable(t, u, r);
    }
  }

  // ---------------------------------------------------------------- every step and every run

  lemma StepKeepsStorage(limits: Limits, s: System, l: Label)
    requires limits.Sufficient() && LedgerOk(s) && TimedOk(limits, s) && WithinLifetimes(limits, s) && StorageOk(s)
    requires Enabled(s, l) && GuardedStep(s, l)
    ensures StorageOk(Apply(s, l))
  {
    match l
    case StepPublisher(id, reply) => PublisherStepKeepsStorage(limits, s, id, reply);
    case StepCleaner(id, input) => CleanerStepKeepsStorage(limits, s, id, input);
    case _ => RunChangeKeepsStorage(s, l);
  }

  lemma PublisherStepKeepsStorage(limits: Limits, s: System, id: nat, reply: Reply)
    requires LedgerOk(s) && TimedOk(limits, s) && StorageOk(s)
    requires Enabled(s, StepPublisher(id, reply)) && GuardedStep(s, StepPublisher(id, reply))
    ensures StorageOk(Apply(s, StepPublisher(id, reply)))
  {
    hide PublisherStep, PublisherOk, HolderOk, UploadedOk, NoShadow, PublishedImpliesStored, CanReserve, NoOrphans, Exclusive;
    var t, r := s.registry, s.publishers[id];
    var (u, r') := PublisherStep(t, r, reply);
    assert PublisherOk(t, r) && HolderOk(limits, t, r) && UploadedOk(t, r);
    PublisherKeepsStorage(limits, t, r, reply);
    PublisherAddsObjects(t, r, reply);
    var publishers := s.publishers[id := r'];
    forall q | q in publishers ensures UploadedOk(u, publishers[q]) {
      if q == id {
        OwnUploads(t, r, reply);
      } else {
        assert UploadedOk(t, s.publishers[q]);
        UploadedStable(t, u, s.publishers[q]);
      }
    }
  }

  lemma CleanerStepKeepsStorage(limits: Limits, s: System, id: nat, input: CleanerInput)
    requires LedgerOk(s) && TimedOk(limits, s) && StorageOk(s)
    requires Enabled(s, StepCleaner(id, input))
    ensures StorageOk(Apply(s, StepCleaner(id, input)))
  {
    hide CleanerStep, LeaseOwnerOk, HolderOk, UploadedOk, NoShadow, PublishedImpliesStored, NoOrphans, Exclusive;
    var t, c := s.registry, s.cleaners[id];
    var u := CleanerStep(t, c, input).0;
    assert LeaseOwnerOk(t, c);
    CleanerKeepsStorage(t, c, input);
    forall q | q in s.publishers ensures UploadedOk(u, s.publishers[q]) {
      assert HolderOk(limits, t, s.publishers[q]) && UploadedOk(t, s.publishers[q]);
      CleanerKeepsUploads(limits, t, c, input, s.publishers[q]);
    }
  }

  lemma RunChangeKeepsStorage(s: System, l: Label)
    requires StorageOk(s) && Enabled(s, l) && !l.StepPublisher? && !l.StepCleaner?
    ensures StorageOk(Apply(s, l))
  {
    var u := Apply(s, l);
    TablesChangeKeepsStorage(s.registry, u.registry);
    forall q | q in u.publishers ensures UploadedOk(u.registry, u.publishers[q]) {
      if q in s.publishers { assert UploadedOk(s.registry, s.publishers[q]); }
    }
  }

  ghost predicate GuardedRun(s: System, labels: seq<Label>)
    requires Executable(s, labels)
    decreases |labels|
  {
    labels == [] || (GuardedStep(s, labels[0]) && GuardedRun(Apply(s, labels[0]), labels[1..]))
  }

  lemma {:induction false} RunKeepsStorage(limits: Limits, s: System, labels: seq<Label>)
    requires limits.Sufficient() && LedgerOk(s) && TimedOk(limits, s) && StorageOk(s)
    requires Executable(s, labels) && TimelyRun(limits, s, labels) && GuardedRun(s, labels)
    ensures StorageOk(Run(s, labels))
    decreases |labels|
  {
    if labels != [] {
      StepKeepsLedger(s, labels[0]);
      StepKeepsTiming(limits, s, labels[0]);
      StepKeepsStorage(limits, s, labels[0]);
      RunKeepsStorage(limits, Apply(s, labels[0]), labels[1..]);
    }
  }

  // ---------------------------------------------------------------- the results

  /** No stored object is orphaned, at whatever step publishers and cleaners stopped. */
  lemma StoredObjectsAreAccounted(limits: Limits, labels: seq<Label>, o: ObjectKey)
    requires limits.Sufficient() && Executable(START, labels) && TimelyRun(limits, START, labels)
    requires o in Run(START, labels).registry.objects
    ensures var t := Run(START, labels).registry;
            Published(t.versions, o)
            || (o.coordinate in t.uploads && t.uploads[o.coordinate].digest == o.digest && t.uploads[o.coordinate].owner in t.intents)
  {
    StartIsOk();
    RunKeepsTiming(limits, START, labels);
    var t := Run(START, labels).registry;
    assert Accounted(t, o);
    if o.coordinate in t.uploads { assert RowOwned(t.uploads, t.intents, o.coordinate); }
  }

  /** Under the guard every published version has its object under its package key. */
  lemma PublishedVersionsAreStored(limits: Limits, labels: seq<Label>, c: Coordinate)
    requires limits.Sufficient() && Executable(START, labels)
    requires TimelyRun(limits, START, labels) && GuardedRun(START, labels)
    requires c in Run(START, labels).registry.versions
    ensures var t := Run(START, labels).registry;
            var o := ObjectKey(c, t.versions[c].digest);
            o in t.objects && t.objects[o] == t.versions[c].digest
  {
    StartIsOk();
    RunKeepsTiming(limits, START, labels);
    RunKeepsStorage(limits, START, labels);
    assert HasObject(Run(START, labels).registry, c);
  }

  /** A live publisher past its reservation works on published artifacts or on its own open intent. */
  lemma LivePublishersKeepTheirIntent(limits: Limits, labels: seq<Label>, id: nat)
    requires limits.Sufficient() && Executable(START, labels) && TimelyRun(limits, START, labels)
    requires id in Run(START, labels).publishers && Holding(Run(START, labels).publishers[id])
    ensures var t, r := Run(START, labels).registry, Run(START, labels).publishers[id];
            PublishedBundle(t.versions, r.bundle) || Resumable(t, r.Key(), r.bundle)
  {
    StartIsOk();
    RunKeepsTiming(limits, START, labels);
    assert HolderOk(limits, Run(START, labels).registry, Run(START, labels).publishers[id]);
  }

  /** A cleaner that deletes still holds the lease and the incarnation it claimed, more than two TTLs
      after the last touch, and deletes only keys of that intent; no other cleaner holds it. */
  lemma CleanersDeleteOnlyTheirIncarnation(limits: Limits, labels: seq<Label>, id: nat, other: nat)
    requires limits.Sufficient() && Executable(START, labels) && TimelyRun(limits, START, labels)
    requires id in Run(START, labels).cleaners && Run(START, labels).cleaners[id].pc.DeleteKeys?
    ensures var t, c := Run(START, labels).registry, Run(START, labels).cleaners[id];
            && LeaseHeld(t, c)
            && t.intents[c.pc.key].touchedAt + 7200 < c.now
            && (forall i :: 0 <= i < |c.pc.keys| ==> c.pc.keys[i] in UploadKeys(t, c.pc.key))
    ensures var cleaners := Run(START, labels).cleaners;
            other in cleaners && other != id && Owns(cleaners[other]) ==> cleaners[other].pc.key != cleaners[id].pc.key
  {
    StartIsOk();
    RunKeepsTiming(limits, START, labels);
    var t, c := Run(START, labels).registry, Run(START, labels).cleaners[id];
    assert LeaseOwnerOk(t, c) && CleanerOk(t, c);
    forall i | 0 <= i < |c.pc.keys| ensures c.pc.keys[i] in UploadKeys(t, c.pc.key) {
      assert Contains(t.intents[c.pc.key].bundle, c.pc.keys[i]);
      RowsOf(t, c.pc.key, c.pc.keys[i]);
    }
  }
}
