/**
 `publishBundle`, in the order of the program, over the statements of `RegistryService`.
 */
module RegistryPublish {
  import opened Options
  import opened RegistryTables
  import opened RegistryRuns
  import opened RegistryService
  import opened RegistryLedger
  import opened RegistryInvariant
  import opened RegistryAcceptance

  /** Why a publication fails: what its last statement found in the tables. */
  ghost predicate Justifies(t: Registry, publisher: Publisher, bundle: Bundle, error: Error) {
    var key := PublicationKey(publisher.githubUserId, bundle.idempotencyKey);
    match error
    case NamespaceMismatch => bundle.namespace != publisher.namespace
    case IdempotencyConflict =>
      || (key in t.mutations && t.mutations[key].bundle != bundle)
      || (IsPending(t, key, bundle) && !Faithful(t.intents[key].result, bundle))
    case IntentInvalid => IsPending(t, key, bundle) && !Faithful(t.intents[key].result, bundle)
    case VersionNotNext => IsBehind(t.versions, bundle)
    case DependencyRejected => bundle.Valid() ==> IsUnmet(t.versions, bundle)
    case QuotaExceeded => exists day :: IsOverQuota(t, publisher, bundle, day)
    case ReservationConflict => !IsPending(t, key, bundle)
    case StorageConflict => IsTaken(t.objects, bundle)
    case FinalizationConflict => key !in t.mutations
    case PublishConflict => key !in t.mutations
  }

  ghost predicate IsBehind(versions: map<Coordinate, Version>, bundle: Bundle) {
    exists i :: 0 <= i < |bundle.artifacts| &&
      bundle.artifacts[i].coordinate.version != LatestVersion(versions, bundle.artifacts[i].coordinate) + 1
  }

  ghost predicate IsUnmet(versions: map<Coordinate, Version>, bundle: Bundle) {
    exists i :: 0 <= i < |bundle.dependencies| && !MeetsDependency(versions, bundle, bundle.dependencies[i])
  }

  /** The bundle would pass 50 artifacts or 10 MiB on the day. */
  ghost predicate IsOverQuota(t: Registry, publisher: Publisher, bundle: Bundle, day: int) {
    var used := CurrentUsage(t, UsageKey(publisher.githubUserId, day));
    used.artifactCount + |bundle.artifacts| > 50 || used.byteCount + Sizes(bundle.artifacts) > 10_485_760
  }

  /** Some object key holds no object, or one with another digest. */
  ghost predicate IsTaken(objects: map<ObjectKey, string>, bundle: Bundle) {
    exists i :: 0 <= i < |bundle.artifacts| &&
      !(bundle.artifacts[i].Key() in objects && objects[bundle.artifacts[i].Key()] == bundle.artifacts[i].digest)
  }

  lemma ChecksJustify(t: Registry, publisher: Publisher, bundle: Bundle)
    ensures IsBehind(t.versions, bundle) ==> Justifies(t, publisher, bundle, VersionNotNext)
    ensures (bundle.Valid() ==> IsUnmet(t.versions, bundle)) ==> Justifies(t, publisher, bundle, DependencyRejected)
    ensures IsTaken(t.objects, bundle) ==> Justifies(t, publisher, bundle, StorageConflict)
  {
  }

  lemma LookupJustifies(t: Registry, publisher: Publisher, bundle: Bundle)
    ensures
      var key := PublicationKey(publisher.githubUserId, bundle.idempotencyKey);
      if key !in t.mutations
      then Justifies(t, publisher, bundle, FinalizationConflict) && Justifies(t, publisher, bundle, PublishConflict)
      else t.mutations[key].bundle != bundle ==> Justifies(t, publisher, bundle, IdempotencyConflict)
  {
  }

  lemma OverQuota(t: Registry, publisher: Publisher, bundle: Bundle, day: int)
    requires !WithinQuota(Plus(CurrentUsage(t, UsageKey(publisher.githubUserId, day)), Demand(bundle)))
    ensures IsOverQuota(t, publisher, bundle, day)
  {
    SizesAreTotal(bundle.artifacts);
  }

  method AssertVersions(world: World, ghost id: nat, ghost r: PublisherRun, artifacts: seq<Artifact>) returns (ok: bool)
    requires world.At(id, r) && r.pc == CheckVersion(0) && r.bundle.artifacts == artifacts
    modifies world
    ensures Leads(old(world.Now()), world.Now())
    ensures world.At(id, r.At(if ok then CheckDependency(0) else PublisherPc.Stopped))
    ensures !ok ==> IsBehind(world.registry.versions, r.bundle)
  {
    hide Leads;
    LeadsNowhere(world.Now());
    for i := 0 to |artifacts|
      invariant world.At(id, r.At(CheckVersion(i))) && Leads(old(world.Now()), world.Now())
    {
      ghost var u := world.Now();
      var latest := world.LatestVersionOf(id, r.At(CheckVersion(i)), artifacts[i].coordinate);
      LeadsAcross(old(world.Now()), u, world.Now());
      if artifacts[i].coordinate.version != latest + 1 {
        return false;
      }
    }
    ghost var u := world.Now();
    world.MoveOn(id, r.At(CheckVersion(|artifacts|)));
    LeadsAcross(old(world.Now()), u, world.Now());
    return true;
  }

  /** The states were passed on the way, in which the first dependencies were met. */
  ghost predicate FoundMet(start: System, end: System, seen: seq<System>, bundle: Bundle) {
    && |seen| <= |bundle.dependencies|
    && forall i :: 0 <= i < |seen| ==>
         && Leads(start, seen[i]) && Leads(seen[i], end)
         && (bundle.Valid() ==> MeetsDependency(seen[i].registry.versions, bundle, bundle.dependencies[i]))
  }

  lemma StillFoundMet(start: System, end: System, later: System, seen: seq<System>, bundle: Bundle)
    requires FoundMet(start, end, seen, bundle) && Leads(end, later)
    ensures FoundMet(start, later, seen, bundle)
  {
    hide Leads, MeetsDependency;
    forall i | 0 <= i < |seen| ensures Leads(seen[i], later) {
      LeadsAcross(seen[i], end, later);
    }
  }

  lemma NowFoundMet(start: System, end: System, seen: seq<System>, bundle: Bundle)
    requires FoundMet(start, end, seen, bundle) && Leads(start, end) && |seen| < |bundle.dependencies|
    requires bundle.Valid() ==> MeetsDependency(end.registry.versions, bundle, bundle.dependencies[|seen|])
    ensures FoundMet(start, end, seen + [end], bundle)
  {
    LeadsNowhere(end);
    hide Leads, MeetsDependency;
  }

  /**
   Every dependency was met in a state passed on the way, or the loop stopped at the first that was not met
   by the tables as its statement saw them.
   */
  method AssertDependencies(world: World, ghost id: nat, ghost r: PublisherRun, bundle: Bundle)
    returns (ok: bool, ghost seen: seq<System>)
    requires world.At(id, r) && r.pc == CheckDependency(0) && r.bundle == bundle
    modifies world
    ensures Leads(old(world.Now()), world.Now())
    ensures world.At(id, r.At(if !ok then PublisherPc.Stopped else if r.resumed then Put(0) else ReadQuota))
    ensures FoundMet(old(world.Now()), world.Now(), seen, bundle)
    ensures ok ==> |seen| == |bundle.dependencies|
    ensures !ok ==> |seen| < |bundle.dependencies|
    ensures !ok && bundle.Valid() ==> !MeetsDependency(world.registry.versions, bundle, bundle.dependencies[|seen|])
  {
    hide Leads, FoundMet, MeetsDependency;
    ghost var start := world.Now();
    LeadsNowhere(world.Now());
    seen := [];
    assert FoundMet(start, start, [], bundle) by { NothingFoundMet(start, bundle); }
    for i := 0 to |bundle.dependencies|
      invariant world.At(id, r.At(CheckDependency(i))) && Leads(start, world.Now())
      invariant |seen| == i && FoundMet(start, world.Now(), seen, bundle)
    {
      ghost var u := world.Now();
      ok := world.DependencyIsAvailable(id, r.At(CheckDependency(i)), bundle, bundle.dependencies[i]);
      LeadsAcross(start, u, world.Now());
      StillFoundMet(start, u, world.Now(), seen, bundle);
      if !ok {
        return false, seen;
      }
      NowFoundMet(start, world.Now(), seen, bundle);
      seen := seen + [world.Now()];
    }
    ghost var u := world.Now();
    world.MoveOn(id, r.At(CheckDependency(|bundle.dependencies|)));
    LeadsAcross(start, u, world.Now());
    StillFoundMet(start, u, world.Now(), seen, bundle);
    return true, seen;
  }

  lemma NothingFoundMet(start: System, bundle: Bundle)
    ensures FoundMet(start, start, [], bundle)
  {
  }

  method StoreObjects(world: World, ghost id: nat, ghost r: PublisherRun, artifacts: seq<Artifact>) returns (ok: bool)
    requires world.At(id, r) && r.pc == Put(0) && r.bundle.artifacts == artifacts
    modifies world
    ensures Leads(old(world.Now()), world.Now())
    ensures world.At(id, r.At(if ok then ReadClaimClock else PublisherPc.Stopped))
    ensures !ok ==> IsTaken(world.registry.objects, r.bundle)
  {
    hide Leads;
    LeadsNowhere(world.Now());
    for i := 0 to |artifacts|
      invariant world.At(id, r.At(Put(i))) && Leads(old(world.Now()), world.Now())
    {
      ghost var u := world.Now();
      var stored := world.PutObject(id, r.At(Put(i)), artifacts[i]);
      LeadsAcross(old(world.Now()), u, world.Now());
      if stored { continue; }
      u := world.Now();
      var existing := world.HeadObject(id, r.At(Head(i)), artifacts[i]);
      LeadsAcross(old(world.Now()), u, world.Now());
      if existing != Some(artifacts[i].digest) {
        return false;
      }
    }
    ghost var u := world.Now();
    world.MoveOn(id, r.At(Put(|artifacts|)));
    LeadsAcross(old(world.Now()), u, world.Now());
    return true;
  }

  /** What a stored result must satisfy to be resumed: it is what preparing the bundle again yields. */
  method PrepareAgain(ghost r: PublisherRun, bundle: Bundle, stored: PublishResult, ghost next: PublisherPc)
    returns (error: Option<Error>, prepared: PublishResult)
    requires r.bundle == bundle
    ensures Resume(r, stored, next) ==
      if error.Some? then r.At(PublisherPc.Stopped) else r.(resumed := true, result := prepared, pc := next)
    ensures error.Some? ==> !Faithful(stored, bundle) && (error.value.IntentInvalid? || error.value.IdempotencyConflict?)
  {
    var publishedAt := ResultPublishedAt(stored);
    if publishedAt.None? {
      return Some(IntentInvalid), [];
    }
    prepared := Prepare(bundle, publishedAt.value, stored[|stored| - 1].profile);
    error := if prepared != stored then Some(IdempotencyConflict) else None;
  }

  /** Reserving anew, or resuming what another request of the same key reserved meanwhile. */
  method ReservePublication(world: World, ghost id: nat, ghost r: PublisherRun, publisher: Publisher, bundle: Bundle,
                            result: PublishResult, now: int)
    returns (error: Option<Error>, prepared: PublishResult, ghost r': PublisherRun)
    requires world.At(id, r) && r.pc.ReadQuota? && r.publisher == publisher && r.bundle == bundle
    requires r.result == result && r.now == now
    modifies world
    ensures Leads(old(world.Now()), world.Now()) && world.At(id, r')
    ensures r'.publisher == publisher && r'.bundle == bundle && r'.now == now
    ensures if error.Some? then r'.pc.Stopped? else r'.pc == Put(0) && r'.result == prepared
    ensures error.Some? ==> Justifies(world.registry, publisher, bundle, error.value)
  {
    hide Leads;
    var key := PublicationKey(publisher.githubUserId, bundle.idempotencyKey);
    var usage := world.ReadUsage(id, r, UsageKey(publisher.githubUserId, Day(now)));
    prepared := result;
    if !WithinQuota(Plus(usage, Demand(bundle))) {
      OverQuota(world.registry, publisher, bundle, Day(now));
      return Some(QuotaExceeded), prepared, r.At(PublisherPc.Stopped);
    }
    ghost var u := world.Now();
    var reserved := world.ReserveAll(id, r.At(ReserveBatch), key, bundle, result, now);
    LeadsAcross(old(world.Now()), u, world.Now());
    if reserved {
      return None, prepared, r.At(Put(0));
    }
    u := world.Now();
    var pending := world.TouchPendingPublication(id, r.At(TouchAfterConflict), key, bundle, now);
    LeadsAcross(old(world.Now()), u, world.Now());
    if pending.None? {
      return Some(ReservationConflict), prepared, r.At(PublisherPc.Stopped);
    }
    error, prepared := PrepareAgain(r.At(TouchAfterConflict), bundle, pending.value, Put(0));
    r' := Resume(r.At(TouchAfterConflict), pending.value, Put(0));
  }

  /** From the stored objects to the published rows. */
  method Finalize(world: World, ghost id: nat, ghost r: PublisherRun, publisher: Publisher, bundle: Bundle, result: PublishResult)
    returns (outcome: Outcome)
    requires world.At(id, r) && r.pc.ReadClaimClock? && r.publisher == publisher && r.bundle == bundle && r.result == result
    modifies world
    ensures Leads(old(world.Now()), world.Now())
    ensures world.At(id, r.At(if outcome.Success? then Returned(outcome.result) else PublisherPc.Stopped))
    ensures outcome.Failure? ==> Justifies(world.registry, publisher, bundle, outcome.error)
  {
    hide Leads, Justifies;
    var key := PublicationKey(publisher.githubUserId, bundle.idempotencyKey);
    var at := world.ReadTime(id, r);
    ghost var u := world.Now();
    var claimed := world.ClaimPublicationFinalization(id, r.At(Claim(at)), key, bundle, at);
    LeadsAcross(old(world.Now()), u, world.Now());
    if !claimed {
      u := world.Now();
      var found := world.SuccessfulPublication(id, r.At(LookupAfterClaim), key, bundle);
      LeadsAcross(old(world.Now()), u, world.Now());
      LookupJustifies(world.registry, publisher, bundle);
      return match found
             case Found(completed) => Success(completed)
             case Conflicting => Outcome.Failure(IdempotencyConflict)
             case Missing => Outcome.Failure(FinalizationConflict);
    }
    u := world.Now();
    var committed := world.CommitAll(id, r.At(CommitBatch), key, bundle, result);
    LeadsAcross(old(world.Now()), u, world.Now());
    if committed {
      return Success(result);
    }
    u := world.Now();
    var found := world.SuccessfulPublication(id, r.At(LookupAfterCommit), key, bundle);
    LeadsAcross(old(world.Now()), u, world.Now());
    LookupJustifies(world.registry, publisher, bundle);
    return match found
           case Found(completed) => Success(completed)
           case Conflicting => Outcome.Failure(IdempotencyConflict)
           case Missing => Outcome.Failure(PublishConflict);
  }

  method PublishPrepared(world: World, ghost id: nat, ghost r: PublisherRun, publisher: Publisher, bundle: Bundle,
                         resumed: bool, result: PublishResult, now: int)
    returns (outcome: Outcome, ghost r': PublisherRun)
    requires world.At(id, r) && r.pc == CheckVersion(0) && r.publisher == publisher && r.bundle == bundle
    requires r.resumed == resumed && r.result == result && r.now == now
    modifies world
    ensures Leads(old(world.Now()), world.Now()) && world.At(id, r')
    ensures r'.publisher == publisher && r'.bundle == bundle
    ensures r'.pc == if outcome.Success? then Returned(outcome.result) else PublisherPc.Stopped
    ensures outcome.Failure? ==> Justifies(world.registry, publisher, bundle, outcome.error)
  {
    hide Leads, Justifies, IsBehind, IsTaken, FoundMet;
    ghost var s := world.Now();
    var versionsOk := AssertVersions(world, id, r, bundle.artifacts);
    r' := world.publishers[id];
    ChecksJustify(world.registry, publisher, bundle);
    if !versionsOk { outcome := Outcome.Failure(VersionNotNext); return; }
    ghost var u := world.Now();
    var dependenciesOk;
    ghost var seen;
    dependenciesOk, seen := AssertDependencies(world, id, r', bundle);
    LeadsAcross(s, u, world.Now());
    r' := world.publishers[id];
    ChecksJustify(world.registry, publisher, bundle);
    if !dependenciesOk { outcome := Outcome.Failure(DependencyRejected); return; }
    var prepared := result;
    if !resumed {
      var error;
      u := world.Now();
      error, prepared, r' := ReservePublication(world, id, r', publisher, bundle, result, now);
      LeadsAcross(s, u, world.Now());
      if error.Some? { outcome := Outcome.Failure(error.value); return; }
    }
    u := world.Now();
    var stored := StoreObjects(world, id, r', bundle.artifacts);
    LeadsAcross(s, u, world.Now());
    r' := world.publishers[id];
    ChecksJustify(world.registry, publisher, bundle);
    if !stored { outcome := Outcome.Failure(StorageConflict); return; }
    u := world.Now();
    outcome := Finalize(world, id, r', publisher, bundle, prepared);
    LeadsAcross(s, u, world.Now());
    r' := world.publishers[id];
  }

  method PublishOwnBundle(world: World, ghost id: nat, publisher: Publisher, bundle: Bundle)
    returns (outcome: Outcome, ghost r: PublisherRun)
    requires id !in world.publishers && bundle.Valid() && bundle.namespace == publisher.namespace
    modifies world
    ensures Leads(old(world.Now()), world.Now()) && world.At(id, r)
    ensures r.publisher == publisher && r.bundle == bundle
    ensures r.pc == if outcome.Success? then Returned(outcome.result) else PublisherPc.Stopped
    ensures outcome.Failure? ==> Justifies(world.registry, publisher, bundle, outcome.error)
  {
    hide Leads;
    var key := PublicationKey(publisher.githubUserId, bundle.idempotencyKey);
    ghost var s := world.Now();
    world.Begin(id, publisher, bundle);
    r := world.publishers[id];
    ghost var u := world.Now();
    var previous := world.SuccessfulPublication(id, r, key, bundle);
    LeadsAcross(s, u, world.Now());
    r := world.publishers[id];
    if previous.Conflicting? { outcome := Outcome.Failure(IdempotencyConflict); return; }
    if previous.Found? { outcome := Success(previous.result); return; }
    u := world.Now();
    var now := world.ReadTime(id, r);
    LeadsAcross(s, u, world.Now());
    r := world.publishers[id];
    u := world.Now();
    var pending := world.TouchPendingPublication(id, r, key, bundle, now);
    LeadsAcross(s, u, world.Now());
    var prepared := Prepare(bundle, now, publisher.profile);
    if pending.Some? {
      var error;
      error, prepared := PrepareAgain(r, bundle, pending.value, CheckVersion(0));
      r := world.publishers[id];
      if error.Some? { outcome := Outcome.Failure(error.value); return; }
    }
    r := world.publishers[id];
    u := world.Now();
    outcome, r := PublishPrepared(world, id, r, publisher, bundle, pending.Some?, prepared, now);
    LeadsAcross(s, u, world.Now());
  }

  /** A run for the key that has returned, returned this. */
  ghost predicate AgreesOn(r: PublisherRun, key: PublicationKey, bundle: Bundle, result: PublishResult) {
    r.pc.Returned? && r.Key() == key ==> r.bundle == bundle && r.pc.result == result
  }

  /**
   The publication stands: committed once, stored with this result, all its artifacts published, and every
   run that has returned for the key has returned the same.
   */
  ghost predicate Settled(s: System, key: PublicationKey, bundle: Bundle, result: PublishResult) {
    && Commits(s.registry.history, key) == 1
    && key in s.registry.mutations && s.registry.mutations[key] == Mutation(bundle, result)
    && PublishedBundle(s.registry.versions, bundle)
    && forall other :: other in s.publishers ==> AgreesOn(s.publishers[other], key, bundle, result)
  }

  lemma LeadsKeepsReachable(s: System, u: System)
    requires Reachable(s) && Leads(s, u)
    ensures Reachable(u)
  {
    var first :| Executable(START, first) && Run(START, first) == s;
    var second :| Executable(s, second) && Run(s, second) == u;
    RunsConcatenate(START, first, second);
  }

  lemma ReturnedIsSettled(s: System, id: nat)
    requires Reachable(s) && id in s.publishers && s.publishers[id].pc.Returned?
    ensures var r := s.publishers[id]; Settled(s, r.Key(), r.bundle, r.pc.result)
  {
    ReachableIsOk(s);
    assert PublisherOk(s.registry, s.publishers[id]);
    CommitsHappenOnce(s, s.publishers[id].Key());
    forall other | other in s.publishers ensures AgreesOn(s.publishers[other], s.publishers[id].Key(), s.publishers[id].bundle, s.publishers[id].pc.result) {
      assert PublisherOk(s.registry, s.publishers[other]);
    }
  }
  /**
   Whatever the other runs do meanwhile, a publication is one run of the step machine, returning what that
   run returns; so by the invariants a result that is returned is the stored result of its key.
   */
  method PublishBundle(world: World, ghost id: nat, publisher: Publisher, bundle: Bundle)
    returns (outcome: Outcome)
    requires id !in world.publishers && bundle.Valid()
    requires Reachable(world.Now())
    modifies world
    ensures bundle.namespace != publisher.namespace ==> outcome == Outcome.Failure(NamespaceMismatch) && world.Now() == old(world.Now())
    ensures Leads(old(world.Now()), world.Now()) && Reachable(world.Now())
    ensures bundle.namespace == publisher.namespace ==>
      && id in world.publishers
      && world.publishers[id].pc == (if outcome.Success? then Returned(outcome.result) else PublisherPc.Stopped)
    ensures outcome.Failure? ==> Justifies(world.registry, publisher, bundle, outcome.error)
    ensures outcome.Success? ==>
      Settled(world.Now(), PublicationKey(publisher.githubUserId, bundle.idempotencyKey), bundle, outcome.result)
  {
    LeadsNowhere(world.Now());
    if bundle.namespace != publisher.namespace {
      return Outcome.Failure(NamespaceMismatch);
    }
    ghost var r;
    outcome, r := PublishOwnBundle(world, id, publisher, bundle);
    LeadsKeepsReachable(old(world.Now()), world.Now());
    if outcome.Success? { ReturnedIsSettled(world.Now(), id); }
  }
}
