/**
 Under the lifetime limits every step keeps `TimedOk`.
 */
module RegistryTimedSteps {
  import opened RegistryTables
  import opened RegistryRuns
  import opened RegistryLedger
  import opened RegistryStatements
  import opened RegistryInvariant
  import opened RegistryTiming

  // ---------------------------------------------------------------- a publisher's step and the others

  lemma PutKeepsHold(t: Registry, a: Artifact, key: PublicationKey, bundle: Bundle, since: int)
    ensures KeepsHold(t, PutIfAbsent(t, a), key, bundle, since)
  {
  }

  lemma PublisherKeepsHold(limits: Limits, t: Registry, r: PublisherRun, reply: Reply,
                           key: PublicationKey, bundle: Bundle, since: int)
    requires PublisherOk(t, r) && r.Live() && HolderOk(limits, t, r)
    requires PublisherInTime(limits, t.clock, r) && since <= t.clock - limits.publisher
    ensures KeepsHold(t, PublisherStep(t, r, reply).0, key, bundle, since)
  {
    hide Touch, ClaimFinalization, PutIfAbsent, Reserve, Commit;
    match r.pc
    case TouchPending => TouchKeepsHold(t, r.Key(), r.bundle, r.now, key, bundle, since);
    case TouchAfterConflict => TouchKeepsHold(t, r.Key(), r.bundle, r.now, key, bundle, since);
    case Claim(at) => TouchKeepsHold(t, r.Key(), r.bundle, at, key, bundle, since);
    case ReserveBatch =>
      if CanReserve(t, r.Key(), r.bundle, Day(r.now)) {
        ReserveKeepsHold(t, r.Key(), r.bundle, r.result, r.now, key, bundle, since);
      }
    case CommitBatch =>
      if CanCommit(t, r.Key(), r.bundle) {
        CommitKeepsHold(t, r.Key(), r.bundle, r.result, r.startedAt - limits.publisher, key, bundle, since);
      }
    case Put(i) => if i < |r.bundle.artifacts| { PutKeepsHold(t, r.bundle.artifacts[i], key, bundle, since); }
    case _ =>
  }

  lemma CommitKeepsLease(t: Registry, key: PublicationKey, b: Bundle, result: PublishResult, c: CleanerRun)
    requires LeaseOwnerOk(t, c) && b.Valid() && Unpublished(t.versions, b)
    ensures LeaseOwnerOk(Commit(t, key, b, result), c)
  {
    if Owns(c) {
      CommitLeavesOthers(t, key, b, result, c.pc.key);
      CommitExtends(t, key, b, result);
      LeaseOwnerStable(t, Commit(t, key, b, result), c);
    }
  }

  lemma TouchKeepsLease(t: Registry, key: PublicationKey, b: Bundle, now: int, c: CleanerRun)
    requires LeaseOwnerOk(t, c)
    ensures LeaseOwnerOk(Touch(t, key, b, now), c)
  {
    LeaseOwnerStable(t, Touch(t, key, b, now), c);
  }

  lemma ClaimKeepsLease(t: Registry, key: PublicationKey, b: Bundle, now: int, c: CleanerRun)
    requires LeaseOwnerOk(t, c)
    ensures LeaseOwnerOk(ClaimFinalization(t, key, b, now), c)
  {
    LeaseOwnerStable(t, ClaimFinalization(t, key, b, now), c);
  }

  lemma ReserveKeepsLease(t: Registry, key: PublicationKey, b: Bundle, result: PublishResult, now: int, c: CleanerRun)
    requires LeaseOwnerOk(t, c) && key !in t.intents
    ensures LeaseOwnerOk(Reserve(t, key, b, result, now), c)
  {
    hide UploadRows, Demand;
    LeaseOwnerStable(t, Reserve(t, key, b, result, now), c);
  }

  lemma PutKeepsLease(limits: Limits, t: Registry, r: PublisherRun, i: nat, c: CleanerRun)
    requires UploadsOk(t.uploads, t.intents) && HolderOk(limits, t, r) && r.pc == Put(i) && i < |r.bundle.artifacts|
    requires LeaseOwnerOk(t, c)
    ensures LeaseOwnerOk(PutIfAbsent(t, r.bundle.artifacts[i]), c)
  {
    assert Contains(r.bundle, r.bundle.artifacts[i].Key());
    LeaseOwnerAfterPut(t, r.bundle.artifacts[i], r.Key(), r.bundle, r.startedAt - limits.publisher, c);
  }

  lemma PublisherKeepsLease(limits: Limits, t: Registry, r: PublisherRun, reply: Reply, c: CleanerRun)
    requires UploadsOk(t.uploads, t.intents) && PublisherOk(t, r) && r.Live() && HolderOk(limits, t, r)
    requires LeaseOwnerOk(t, c)
    ensures LeaseOwnerOk(PublisherStep(t, r, reply).0, c)
  {
    assert r.bundle.Valid();
    hide LeaseOwnerOk, UploadsOk, PublisherOk, Reserve, Commit, CanReserve, CanCommit;
    match r.pc
    case TouchPending => TouchKeepsLease(t, r.Key(), r.bundle, r.now, c);
    case TouchAfterConflict => TouchKeepsLease(t, r.Key(), r.bundle, r.now, c);
    case Claim(at) => ClaimKeepsLease(t, r.Key(), r.bundle, at, c);
    case ReserveBatch =>
      if CanReserve(t, r.Key(), r.bundle, Day(r.now)) && !reply.Refused? {
        ReserveKeepsLease(t, r.Key(), r.bundle, r.result, r.now, c);
      }
    case Put(i) => if i < |r.bundle.artifacts| { PutKeepsLease(limits, t, r, i, c); }
    case CommitBatch =>
      if CanCommit(t, r.Key(), r.bundle) && !reply.Refused? {
        CommitKeepsLease(t, r.Key(), r.bundle, r.result, c);
      }
    case _ =>
  }

  // ---------------------------------------------------------------- no orphans

  lemma ReserveKeepsAccounts(t: Registry, key: PublicationKey, bundle: Bundle, result: PublishResult, now: int)
    requires NoOrphans(t) && CanReserve(t, key, bundle, Day(now))
    ensures NoOrphans(Reserve(t, key, bundle, result, now))
  {
    hide UploadRows, Demand;
    RowsAreOwn(t, key, bundle);
    var u := Reserve(t, key, bundle, result, now);
    forall o | o in u.objects ensures Accounted(u, o) {
      assert Accounted(t, o);
    }
  }

  lemma PutKeepsAccounts(t: Registry, a: Artifact, key: PublicationKey, bundle: Bundle, since: int)
    requires NoOrphans(t) && UploadsOk(t.uploads, t.intents)
    requires Held(t, key, bundle, since) && Contains(bundle, a.Key())
    ensures NoOrphans(PutIfAbsent(t, a))
  {
    var u := PutIfAbsent(t, a);
    HolderKeyAccounted(t, key, bundle, since, a.Key());
    forall o | o in u.objects ensures Accounted(u, o) {
      if o != a.Key() { assert Accounted(t, o); }
    }
  }

  lemma CommitKeepsAccounts(t: Registry, key: PublicationKey, bundle: Bundle, result: PublishResult, since: int)
    requires NoOrphans(t) && UploadsOk(t.uploads, t.intents)
    requires bundle.Valid() && Unpublished(t.versions, bundle) && Held(t, key, bundle, since)
    ensures NoOrphans(Commit(t, key, bundle, result))
  {
    var u := Commit(t, key, bundle, result);
    NotPublished(t.versions, bundle);
    forall o | o in u.objects ensures Accounted(u, o) {
      assert Accounted(t, o);
      CommitPublishes(t.versions, bundle, o);
      if !Published(t.versions, o) && t.uploads[o.coordinate].owner == key {
        assert RowOwned(t.uploads, t.intents, o.coordinate);
      }
    }
  }

  lemma HolderPutKeepsAccounts(limits: Limits, t: Registry, r: PublisherRun, i: nat)
    requires NoOrphans(t) && UploadsOk(t.uploads, t.intents) && HolderOk(limits, t, r)
    requires r.pc == Put(i) && i < |r.bundle.artifacts|
    ensures NoOrphans(PutIfAbsent(t, r.bundle.artifacts[i]))
  {
    assert Contains(r.bundle, r.bundle.artifacts[i].Key());
    PutKeepsAccounts(t, r.bundle.artifacts[i], r.Key(), r.bundle, r.startedAt - limits.publisher);
  }

  lemma TouchKeepsAccounts(t: Registry, key: PublicationKey, b: Bundle, now: int)
    requires NoOrphans(t)
    ensures NoOrphans(Touch(t, key, b, now)) && NoOrphans(ClaimFinalization(t, key, b, now))
  {
    IntentChangeKeepsAccounts(t, Touch(t, key, b, now));
    IntentChangeKeepsAccounts(t, ClaimFinalization(t, key, b, now));
  }

  lemma PublisherKeepsAccounts(limits: Limits, t: Registry, r: PublisherRun, reply: Reply)
    requires NoOrphans(t) && UploadsOk(t.uploads, t.intents)
    requires PublisherOk(t, r) && r.Live() && HolderOk(limits, t, r)
    ensures NoOrphans(PublisherStep(t, r, reply).0)
  {
    hide Touch, ClaimFinalization, PutIfAbsent, Reserve, Commit, CanReserve, NoOrphans, UploadsOk;
    match r.pc
    case ReserveBatch =>
      if CanReserve(t, r.Key(), r.bundle, Day(r.now)) && !reply.Refused? {
        ReserveKeepsAccounts(t, r.Key(), r.bundle, r.result, r.now);
      }
    case Put(i) => if i < |r.bundle.artifacts| { HolderPutKeepsAccounts(limits, t, r, i); }
    case CommitBatch =>
      if CanCommit(t, r.Key(), r.bundle) && !reply.Refused? {
        CommitKeepsAccounts(t, r.Key(), r.bundle, r.result, r.startedAt - limits.publisher);
      }
    case TouchPending => TouchKeepsAccounts(t, r.Key(), r.bundle, r.now);
    case TouchAfterConflict => TouchKeepsAccounts(t, r.Key(), r.bundle, r.now);
    case Claim(at) => TouchKeepsAccounts(t, r.Key(), r.bundle, at);
    case _ =>
  }

  lemma IntentChangeKeepsAccounts(t: Registry, u: Registry)
    requires NoOrphans(t) && u.versions == t.versions && u.uploads == t.uploads
    requires forall o :: o in u.objects ==> o in t.objects
    ensures NoOrphans(u)
  {
    forall o | o in u.objects ensures Accounted(u, o) {
      assert Accounted(t, o);
    }
  }

  // ---------------------------------------------------------------- a publisher's own step

  lemma OwnClaimHolds(limits: Limits, t: Registry, r: PublisherRun, at: int)
    requires HolderOk(limits, t, r) && r.pc == Claim(at) && r.startedAt <= at && Resumable(t, r.Key(), r.bundle)
    ensures HolderOk(limits, ClaimFinalization(t, r.Key(), r.bundle, at), r.At(CommitBatch))
  {
  }

  lemma OwnReserveHolds(limits: Limits, t: Registry, r: PublisherRun)
    requires r.pc.ReserveBatch? && r.startedAt <= r.now
    ensures HolderOk(limits, Reserve(t, r.Key(), r.bundle, r.result, r.now), r.At(Put(0)))
  {
  }

  lemma OwnPutHolds(limits: Limits, t: Registry, r: PublisherRun, i: nat, pc: PublisherPc)
    requires HolderOk(limits, t, r) && r.pc == Put(i) && i < |r.bundle.artifacts| && (pc.Put? || pc.Head?)
    ensures HolderOk(limits, PutIfAbsent(t, r.bundle.artifacts[i]), r.At(pc))
  {
  }

  lemma OwnQueryHolds(limits: Limits, t: Registry, r: PublisherRun, reply: Reply)
    requires HolderOk(limits, t, r) && r.Live()
    requires !(r.pc.TouchPending? || r.pc.TouchAfterConflict? || r.pc.ReserveBatch? || r.pc.Put? || r.pc.Claim? || r.pc.CommitBatch?)
    ensures HolderOk(limits, t, PublisherStep(t, r, reply).1)
  {
  }

  lemma OwnStepKeepsHold(limits: Limits, t: Registry, r: PublisherRun, reply: Reply)
    requires TablesOk(t) && PublisherOk(t, r) && r.Live() && HolderOk(limits, t, r)
    ensures HolderOk(limits, PublisherStep(t, r, reply).0, PublisherStep(t, r, reply).1)
  {
    match r.pc
    case TouchPending => OwnTouchHolds(limits, t, r, reply);
    case TouchAfterConflict => OwnTouchHolds(limits, t, r, reply);
    case Claim(_) => OwnWriteHolds(limits, t, r, reply);
    case ReserveBatch => OwnWriteHolds(limits, t, r, reply);
    case Put(_) => OwnWriteHolds(limits, t, r, reply);
    case CommitBatch => OwnWriteHolds(limits, t, r, reply);
    case _ => hide PublisherStep, HolderOk, PublisherOk, TablesOk; OwnQueryHolds(limits, t, r, reply);
  }

  lemma OwnWriteHolds(limits: Limits, t: Registry, r: PublisherRun, reply: Reply)
    requires TablesOk(t) && PublisherOk(t, r) && HolderOk(limits, t, r)
    requires r.pc.Claim? || r.pc.ReserveBatch? || r.pc.Put? || r.pc.CommitBatch?
    ensures HolderOk(limits, PublisherStep(t, r, reply).0, PublisherStep(t, r, reply).1)
  {
    hide Touch, ClaimFinalization, PutIfAbsent, Reserve, Commit, CanReserve, CanCommit, TablesOk, Held, ReadyToCommit;
    match r.pc
    case Claim(at) => if Resumable(t, r.Key(), r.bundle) { OwnClaimHolds(limits, t, r, at); }
    case ReserveBatch => if reply.Clear? { OwnReserveHolds(limits, t, r); }
    case Put(i) =>
      if i < |r.bundle.artifacts| {
        OwnPutHolds(limits, t, r, i, if r.bundle.artifacts[i].Key() in t.objects then Head(i) else Put(i + 1));
      }
    case _ =>
  }

  lemma OwnTouchHolds(limits: Limits, t: Registry, r: PublisherRun, reply: Reply)
    requires TablesOk(t) && PublisherOk(t, r) && (r.pc.TouchPending? || r.pc.TouchAfterConflict?)
    requires HolderOk(limits, t, r)
    ensures HolderOk(limits, PublisherStep(t, r, reply).0, PublisherStep(t, r, reply).1)
  {
    if Resumable(t, r.Key(), r.bundle) {
      assert IntentOk(t.intents[r.Key()], t.incarnations);
      ResumeReproduces(r, t.intents[r.Key()].result, if r.pc.TouchPending? then CheckVersion(0) else Put(0));
    }
  }

  lemma PublisherStepKeepsTiming(limits: Limits, s: System, id: nat, reply: Reply)
    requires limits.Sufficient() && LedgerOk(s) && TimedOk(limits, s) && WithinLifetimes(limits, s)
    requires Enabled(s, StepPublisher(id, reply))
    ensures TimedOk(limits, Apply(s, StepPublisher(id, reply)))
  {
    var t, r := s.registry, s.publishers[id];
    var (u, r') := PublisherStep(t, r, reply);
    var publishers := s.publishers[id := r'];
    assert PublisherOk(t, r) && HolderOk(limits, t, r);
    PublisherKeepsAccounts(limits, t, r, reply);
    forall q | q in publishers ensures HolderOk(limits, u, publishers[q]) {
      if q == id {
        OwnStepKeepsHold(limits, t, r, reply);
      } else {
        var other := s.publishers[q];
        assert HolderOk(limits, t, other) && PublisherOk(t, other);
        PublisherKeepsHold(limits, t, r, reply, other.Key(), other.bundle, other.startedAt - limits.publisher);
      }
    }
    forall q | q in s.cleaners ensures LeaseOwnerOk(u, s.cleaners[q]) {
      assert LeaseOwnerOk(t, s.cleaners[q]);
      PublisherKeepsLease(limits, t, r, reply, s.cleaners[q]);
    }
  }

  // ---------------------------------------------------------------- a cleaner's step

  /** No live publisher's intent is stale for a live cleaner: this is where the limits meet the TTL. */
  lemma CleanerKeepsHold(limits: Limits, t: Registry, c: CleanerRun, input: CleanerInput, r: PublisherRun)
    requires limits.Sufficient() && CleanerOk(t, c) && c.Live()
    requires HolderOk(limits, t, r) && PublisherInTime(limits, t.clock, r)
    ensures HolderOk(limits, CleanerStep(t, c, input).0, r)
  {
    hide QuarantineIntent, ForgetIntent, ClaimCleanup, Held, ReadyToCommit;
    var key, since := r.Key(), r.startedAt - limits.publisher;
    var u := CleanerStep(t, c, input).0;
    if Holding(r) {
      match c.pc
      case Next(candidates) =>
        if candidates != [] {
          QuarantineKeepsHold(t, candidates[0].key, c.now, key, r.bundle, since);
          CleanupKeepsHold(t, candidates[0].key, c.now, key, r.bundle, since);
        }
      case DeleteKeys(own, _, keys, _) =>
        CleanupKeepsHold(t, own, c.now, key, r.bundle, since);
        if keys != [] { DeleteKeepsHold(t, keys[0], key, r.bundle, since); }
      case _ =>
    }
  }

  lemma DeleteKeepsHold(t: Registry, o: ObjectKey, key: PublicationKey, bundle: Bundle, since: int)
    ensures KeepsHold(t, DeleteObject(t, o), key, bundle, since)
  {
  }

  /** A lease is only taken from an owner whose lifetime is over. */
  lemma OwnersExcludeClaims(limits: Limits, t: Registry, owner: CleanerRun, c: CleanerRun, key: PublicationKey)
    requires limits.Sufficient() && LeaseOwnerOk(t, owner) && Owns(owner) && owner.pc.key == key
    requires CleanerInTime(limits, t.clock, owner) && c.now <= t.clock
    ensures !CanClaimCleanup(t, key, c.now)
  {
  }

  lemma CandidateKeepsLease(limits: Limits, t: Registry, c: CleanerRun, key: PublicationKey, owner: CleanerRun)
    requires limits.Sufficient() && LeaseOwnerOk(t, owner) && CleanerInTime(limits, t.clock, owner) && c.now <= t.clock
    ensures LeaseOwnerOk(QuarantineIntent(t, key, c.now), owner)
    ensures CanClaimCleanup(t, key, c.now) ==> LeaseOwnerOk(ClaimCleanup(t, key, c.now), owner)
  {
    LeaseOwnerStable(t, QuarantineIntent(t, key, c.now), owner);
    if CanClaimCleanup(t, key, c.now) {
      if Owns(owner) && owner.pc.key == key { OwnersExcludeClaims(limits, t, owner, c, key); }
      LeaseOwnerStable(t, ClaimCleanup(t, key, c.now), owner);
    }
  }

  lemma DeleteKeepsLease(t: Registry, c: CleanerRun, owner: CleanerRun)
    requires LeaseOwnerOk(t, owner) && c.pc.DeleteKeys?
    requires Owns(owner) ==> owner.pc.key != c.pc.key
    ensures LeaseOwnerOk(ForgetIntent(t, c.pc.key, c.now), owner)
    ensures c.pc.keys != [] ==> LeaseOwnerOk(DeleteObject(t, c.pc.keys[0]), owner)
  {
    LeaseOwnerStable(t, ForgetIntent(t, c.pc.key, c.now), owner);
    if c.pc.keys != [] { LeaseOwnerStable(t, DeleteObject(t, c.pc.keys[0]), owner); }
  }

  lemma CleanerKeepsLease(limits: Limits, t: Registry, c: CleanerRun, input: CleanerInput, owner: CleanerRun)
    requires limits.Sufficient() && c.now <= t.clock && c.Live()
    requires LeaseOwnerOk(t, owner) && CleanerInTime(limits, t.clock, owner)
    requires Owns(c) && Owns(owner) ==> owner.pc.key != c.pc.key
    ensures LeaseOwnerOk(CleanerStep(t, c, input).0, owner)
  {
    hide QuarantineIntent, ClaimCleanup, DeleteObject, ForgetIntent, LeaseOwnerOk;
    match c.pc
    case Next(candidates) => if candidates != [] { CandidateKeepsLease(limits, t, c, candidates[0].key, owner); }
    case DeleteKeys(_, _, _, _) => DeleteKeepsLease(t, c, owner);
    case _ =>
  }

  // ---- the cleaner itself

  lemma ReadKeysOk(t: Registry, c: CleanerRun, keys: seq<ObjectKey>)
    requires UploadsOk(t.uploads, t.intents) && LeaseOwnerOk(t, c) && c.pc.ReadKeys?
    requires Enumerates(keys, UploadKeys(t, c.pc.key))
    ensures LeaseOwnerOk(t, c.At(DeleteKeys(c.pc.key, c.pc.incarnation, keys, c.pc.candidates)))
  {
    var bundle := t.intents[c.pc.key].bundle;
    forall i {:trigger bundle.artifacts[i]} | 0 <= i < |bundle.artifacts| ensures bundle.artifacts[i].Key() in keys {
      assert Contains(bundle, bundle.artifacts[i].Key());
      RowsOf(t, c.pc.key, bundle.artifacts[i].Key());
      assert bundle.artifacts[i].Key() in UploadKeys(t, c.pc.key);
    }
    forall i | 0 <= i < |keys| ensures Contains(bundle, keys[i]) {
      assert keys[i] in UploadKeys(t, c.pc.key);
      assert RowOwned(t.uploads, t.intents, keys[i].coordinate);
    }
  }

  lemma DeleteOneOk(t: Registry, c: CleanerRun)
    requires LeaseOwnerOk(t, c) && c.pc.DeleteKeys? && c.pc.keys != []
    ensures LeaseOwnerOk(DeleteObject(t, c.pc.keys[0]),
                         c.At(DeleteKeys(c.pc.key, c.pc.incarnation, c.pc.keys[1..], c.pc.candidates)))
  {
    var bundle, rest := t.intents[c.pc.key].bundle, c.pc.keys[1..];
    var u := DeleteObject(t, c.pc.keys[0]);
    assert c.pc.keys == [c.pc.keys[0]] + rest;
    forall i {:trigger bundle.artifacts[i]} | 0 <= i < |bundle.artifacts|
      ensures bundle.artifacts[i].Key() in rest || bundle.artifacts[i].Key() !in u.objects
              || Published(u.versions, bundle.artifacts[i].Key())
    {
      assert Erased(t, bundle, c.pc.keys);
    }
    forall i | 0 <= i < |rest| ensures Contains(bundle, rest[i]) {
      assert Contains(bundle, c.pc.keys[i + 1]);
    }
  }

  lemma OwnCleanerStepOk(t: Registry, c: CleanerRun, input: CleanerInput)
    requires UploadsOk(t.uploads, t.intents) && LeaseOwnerOk(t, c) && CleanerCan(t, c, input)
    ensures LeaseOwnerOk(CleanerStep(t, c, input).0, CleanerStep(t, c, input).1)
  {
    if c.pc.ReadKeys? {
      hide LeaseOwnerOk;
      ReadKeysOk(t, c, input.keys);
      OwnReadOk(t, c, input);
    } else if c.pc.DeleteKeys? && c.pc.keys != [] {
      DeleteOneOk(t, c);
    }
  }

  lemma OwnReadOk(t: Registry, c: CleanerRun, input: CleanerInput)
    requires c.pc.ReadKeys?
    requires LeaseOwnerOk(t, c) && LeaseOwnerOk(t, c.At(DeleteKeys(c.pc.key, c.pc.incarnation, input.keys, c.pc.candidates)))
    ensures LeaseOwnerOk(CleanerStep(t, c, input).0, CleanerStep(t, c, input).1)
  {
  }

  /** Once the key list is used up, what is left of the bundle's objects is published. */
  lemma LeftoverIsPublished(t: Registry, c: CleanerRun, o: ObjectKey)
    requires UploadsOk(t.uploads, t.intents) && LeaseOwnerOk(t, c) && c.pc.DeleteKeys? && c.pc.keys == []
    requires o in t.objects && o.coordinate in t.uploads && t.uploads[o.coordinate] == UploadRow(c.pc.key, o.digest)
    ensures Published(t.versions, o)
  {
    var bundle := t.intents[c.pc.key].bundle;
    assert RowOwned(t.uploads, t.intents, o.coordinate);
    var i :| 0 <= i < |bundle.artifacts| && bundle.artifacts[i].Key() == o;
    assert Erased(t, bundle, []);
  }

  lemma ForgetKeepsAccounts(t: Registry, c: CleanerRun)
    requires NoOrphans(t) && UploadsOk(t.uploads, t.intents) && LeaseOwnerOk(t, c) && c.pc.DeleteKeys? && c.pc.keys == []
    ensures NoOrphans(ForgetIntent(t, c.pc.key, c.now))
  {
    var u := ForgetIntent(t, c.pc.key, c.now);
    forall o | o in u.objects ensures Accounted(u, o) {
      assert Accounted(t, o);
      if o.coordinate in t.uploads && t.uploads[o.coordinate] == UploadRow(c.pc.key, o.digest) {
        LeftoverIsPublished(t, c, o);
      }
    }
  }

  lemma CandidateKeepsAccounts(t: Registry, key: PublicationKey, now: int)
    requires NoOrphans(t)
    ensures NoOrphans(QuarantineIntent(t, key, now))
    ensures CanClaimCleanup(t, key, now) ==> NoOrphans(ClaimCleanup(t, key, now))
  {
    IntentChangeKeepsAccounts(t, QuarantineIntent(t, key, now));
    if CanClaimCleanup(t, key, now) { IntentChangeKeepsAccounts(t, ClaimCleanup(t, key, now)); }
  }

  lemma CleanerKeepsAccounts(t: Registry, c: CleanerRun, input: CleanerInput)
    requires NoOrphans(t) && UploadsOk(t.uploads, t.intents) && LeaseOwnerOk(t, c) && c.Live()
    ensures NoOrphans(CleanerStep(t, c, input).0)
  {
    hide ForgetIntent, QuarantineIntent, ClaimCleanup, LeaseOwnerOk, UploadsOk, NoOrphans;
    match c.pc
    case DeleteKeys(_, _, keys, _) =>
      if keys == [] { ForgetKeepsAccounts(t, c); } else { IntentChangeKeepsAccounts(t, DeleteObject(t, keys[0])); }
    case Next(candidates) => if candidates != [] { CandidateKeepsAccounts(t, candidates[0].key, c.now); }
    case _ =>
  }

  lemma CleanerKeepsExclusive(limits: Limits, s: System, id: nat, input: CleanerInput)
    requires limits.Sufficient() && LedgerOk(s) && TimedOk(limits, s) && WithinLifetimes(limits, s)
    requires Enabled(s, StepCleaner(id, input))
    ensures Exclusive(s.cleaners[id := CleanerStep(s.registry, s.cleaners[id], input).1])
  {
    hide PublisherOk, HolderOk, TablesOk, NoOrphans, ForgetIntent, QuarantineIntent, DeleteObject;
    var t, c := s.registry, s.cleaners[id];
    var c' := CleanerStep(t, c, input).1;
    assert CleanerOk(t, c);
    forall b | b in s.cleaners && b != id && Owns(s.cleaners[b]) && Owns(c')
      ensures s.cleaners[b].pc.key != c'.pc.key
    {
      if !Owns(c) {
        assert LeaseOwnerOk(t, s.cleaners[b]) && CleanerInTime(limits, t.clock, s.cleaners[b]);
        if s.cleaners[b].pc.key == c'.pc.key { OwnersExcludeClaims(limits, t, s.cleaners[b], c, c'.pc.key); }
      }
    }
  }

  lemma CleanerStepKeepsTiming(limits: Limits, s: System, id: nat, input: CleanerInput)
    requires limits.Sufficient() && LedgerOk(s) && TimedOk(limits, s) && WithinLifetimes(limits, s)
    requires Enabled(s, StepCleaner(id, input))
    ensures TimedOk(limits, Apply(s, StepCleaner(id, input)))
  {
    hide NoOrphans, HolderOk, LeaseOwnerOk, CleanerStep, PublisherOk;
    var t, c := s.registry, s.cleaners[id];
    var (u, c') := CleanerStep(t, c, input);
    var cleaners := s.cleaners[id := c'];
    assert CleanerOk(t, c) && LeaseOwnerOk(t, c);
    CleanerKeepsAccounts(t, c, input);
    CleanerKeepsExclusive(limits, s, id, input);
    forall q | q in s.publishers ensures HolderOk(limits, u, s.publishers[q]) {
      assert HolderOk(limits, t, s.publishers[q]) && PublisherInTime(limits, t.clock, s.publishers[q]);
      CleanerKeepsHold(limits, t, c, input, s.publishers[q]);
    }
    forall q | q in cleaners ensures LeaseOwnerOk(u, cleaners[q]) {
      if q == id {
        OwnCleanerStepOk(t, c, input);
      } else {
        assert LeaseOwnerOk(t, s.cleaners[q]) && CleanerInTime(limits, t.clock, s.cleaners[q]);
        CleanerKeepsLease(limits, t, c, input, s.cleaners[q]);
      }
    }
  }

  // ---------------------------------------------------------------- every step and every run

  lemma StepKeepsTiming(limits: Limits, s: System, l: Label)
    requires limits.Sufficient() && LedgerOk(s) && TimedOk(limits, s) && WithinLifetimes(limits, s)
    requires Enabled(s, l)
    ensures TimedOk(limits, Apply(s, l))
  {
    match l
    case StepPublisher(id, reply) => PublisherStepKeepsTiming(limits, s, id, reply);
    case StepCleaner(id, input) => CleanerStepKeepsTiming(limits, s, id, input);
    case Tick(seconds) => TickKeepsTiming(limits, s, seconds);
    case _ => RunChangeKeepsTiming(limits, s, l);
  }

  lemma TickKeepsTiming(limits: Limits, s: System, seconds: nat)
    requires TimedOk(limits, s)
    ensures TimedOk(limits, Apply(s, Tick(seconds)))
  {
    var u := Apply(s, Tick(seconds)).registry;
    IntentChangeKeepsAccounts(s.registry, u);
    forall q | q in s.publishers ensures HolderOk(limits, u, s.publishers[q]) {
      assert HolderOk(limits, s.registry, s.publishers[q]);
    }
    forall q | q in s.cleaners ensures LeaseOwnerOk(u, s.cleaners[q]) {
      LeaseOwnerStable(s.registry, u, s.cleaners[q]);
    }
  }

  lemma RunChangeKeepsTiming(limits: Limits, s: System, l: Label)
    requires TimedOk(limits, s) && Enabled(s, l)
    requires l.StartPublisher? || l.StartCleaner? || l.StopPublisher? || l.StopCleaner?
    ensures TimedOk(limits, Apply(s, l))
  {
    var u := Apply(s, l);
    forall q | q in u.publishers ensures HolderOk(limits, u.registry, u.publishers[q]) {
      if q in s.publishers { assert HolderOk(limits, s.registry, s.publishers[q]); }
    }
    forall q | q in u.cleaners ensures LeaseOwnerOk(u.registry, u.cleaners[q]) {
      if q in s.cleaners { assert LeaseOwnerOk(s.registry, s.cleaners[q]); }
    }
  }

  /** A run in which every state, the last one included, respects the limits. */
  ghost predicate TimelyRun(limits: Limits, s: System, labels: seq<Label>)
    decreases |labels|
  {
    && WithinLifetimes(limits, s)
    && (labels == [] || (Enabled(s, labels[0]) && TimelyRun(limits, Apply(s, labels[0]), labels[1..])))
  }

  lemma {:induction false} TimelyIsExecutable(limits: Limits, s: System, labels: seq<Label>)
    requires TimelyRun(limits, s, labels)
    ensures Executable(s, labels) && WithinLifetimes(limits, Run(s, labels))
    decreases |labels|
  {
    if labels != [] { TimelyIsExecutable(limits, Apply(s, labels[0]), labels[1..]); }
  }

  lemma {:induction false} RunKeepsTiming(limits: Limits, s: System, labels: seq<Label>)
    requires limits.Sufficient() && LedgerOk(s) && TimedOk(limits, s) && TimelyRun(limits, s, labels)
    ensures Executable(s, labels) && LedgerOk(Run(s, labels)) && TimedOk(limits, Run(s, labels))
    decreases |labels|
  {
    if labels != [] {
      StepKeepsLedger(s, labels[0]);
      StepKeepsTiming(limits, s, labels[0]);
      RunKeepsTiming(limits, Apply(s, labels[0]), labels[1..]);
    }
  }
}
